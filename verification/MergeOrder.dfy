/**
 When the order of the received trees matters to the gateway merge. The breadth-first order runs level by
 level through all trees, so of several nodes only the shallowest, or the deepest, compete for being met
 first, or last; and each tree that holds one of them can be put in front, or at the end.
 */
module MergeOrder {
  import opened Options
  import opened RoutingInfos
  import opened RoutingIter
  import opened Sequences
  import opened GatewayMerge

  type Test = RoutingInfo -> bool

  function FirstWhere(visits: seq<Visit>, p: Test): Option<Visit> {
    if visits == [] then None
    else if p(visits[0].0) then Some(visits[0])
    else FirstWhere(visits[1..], p)
  }

  function LastWhere(visits: seq<Visit>, p: Test): Option<Visit> {
    if visits == [] then None
    else if p(visits[|visits| - 1].0) then Some(visits[|visits| - 1])
    else LastWhere(visits[..|visits| - 1], p)
  }

  lemma {:induction false} FirstConcat(a: seq<Visit>, b: seq<Visit>, p: Test)
    ensures FirstWhere(a + b, p) == if FirstWhere(a, p).Some? then FirstWhere(a, p) else FirstWhere(b, p)
  {
    if a == [] {
      assert a + b == b;
    } else {
      assert (a + b)[1..] == a[1..] + b;
      FirstConcat(a[1..], b, p);
    }
  }

  lemma {:induction false} LastConcat(a: seq<Visit>, b: seq<Visit>, p: Test)
    ensures LastWhere(a + b, p) == if LastWhere(b, p).Some? then LastWhere(b, p) else LastWhere(a, p)
  {
    if b == [] {
      assert a + b == a;
    } else {
      assert (a + b)[..|a + b| - 1] == a + b[..|b| - 1];
      LastConcat(a, b[..|b| - 1], p);
    }
  }

  lemma {:induction false} WhereMembers(visits: seq<Visit>, p: Test)
    ensures FirstWhere(visits, p).Some? ==> FirstWhere(visits, p).value in visits && p(FirstWhere(visits, p).value.0)
    ensures LastWhere(visits, p).Some? ==> LastWhere(visits, p).value in visits && p(LastWhere(visits, p).value.0)
    ensures FirstWhere(visits, p).Some? <==> exists v :: v in visits && p(v.0)
    ensures LastWhere(visits, p).Some? <==> exists v :: v in visits && p(v.0)
    decreases |visits|
  {
    if visits != [] {
      WhereMembers(visits[1..], p);
      WhereMembers(visits[..|visits| - 1], p);
      assert visits == [visits[0]] + visits[1..];
      assert visits == visits[..|visits| - 1] + [visits[|visits| - 1]];
    }
  }

  function Shallower(a: Option<Visit>, b: Option<Visit>): Option<Visit> {
    if a.None? then b else if b.None? || a.value.1 <= b.value.1 then a else b
  }

  function Deeper(a: Option<Visit>, b: Option<Visit>): Option<Visit> {
    if b.None? then a else if a.None? || a.value.1 <= b.value.1 then b else a
  }

  lemma {:induction false} ChildrenConcat(f: Forest, g: Forest)
    ensures AllChildren(f + g) == AllChildren(f) + AllChildren(g)
  {
    if f == [] {
      assert f + g == g;
    } else {
      assert (f + g)[1..] == f[1..] + g;
      ChildrenConcat(f[1..], g);
    }
  }

  lemma WhereDepth(f: Forest, depth: nat, p: Test)
    ensures FirstWhere(Tag(f, depth), p).Some? ==> FirstWhere(Tag(f, depth), p).value.1 == depth
    ensures LastWhere(Tag(f, depth), p).Some? ==> LastWhere(Tag(f, depth), p).value.1 == depth
    ensures FirstWhere(Levels(f, depth), p).Some? ==> FirstWhere(Levels(f, depth), p).value.1 >= depth
    ensures LastWhere(Levels(f, depth), p).Some? ==> LastWhere(Levels(f, depth), p).value.1 >= depth
  {
    WhereMembers(Tag(f, depth), p);
    WhereMembers(Levels(f, depth), p);
    LevelsAscend(f, depth);
  }

  lemma LevelsUnfold(f: Forest, depth: nat)
    requires f != []
    ensures Levels(f, depth) == Tag(f, depth) + Levels(AllChildren(f), depth + 1)
    ensures ForestSize(AllChildren(f)) < ForestSize(f)
  {
    ForestSizeChildren(f);
  }

  lemma LevelsConcat(f: Forest, g: Forest, depth: nat)
    requires f != [] && g != []
    ensures Levels(f + g, depth)
         == Tag(f, depth) + (Tag(g, depth) + Levels(AllChildren(f) + AllChildren(g), depth + 1))
    ensures ForestSize(AllChildren(f) + AllChildren(g)) < ForestSize(f + g)
  {
    assert Tag(f + g, depth) == Tag(f, depth) + Tag(g, depth);
    hide Levels, Tag, AllChildren, ForestSize;
    LevelsUnfold(f + g, depth);
    ChildrenConcat(f, g);
    Associate(Tag(f, depth), Tag(g, depth), Levels(AllChildren(f) + AllChildren(g), depth + 1));
  }

  /** Of two forests side by side, the one that shows p on a higher level shows it first; the left one on a tie. */
  lemma {:induction false} LevelsFirst(f: Forest, g: Forest, depth: nat, p: Test)
    ensures FirstWhere(Levels(f + g, depth), p)
         == Shallower(FirstWhere(Levels(f, depth), p), FirstWhere(Levels(g, depth), p))
    decreases ForestSize(f + g)
  {
    if f == [] {
      assert f + g == g;
    } else if g == [] {
      assert f + g == f;
    } else {
      LevelsConcat(f, g, depth);
      var below := Levels(AllChildren(f) + AllChildren(g), depth + 1);
      FirstConcat(Tag(f, depth), Tag(g, depth) + below, p);
      FirstConcat(Tag(g, depth), below, p);
      FirstConcat(Tag(f, depth), Levels(AllChildren(f), depth + 1), p);
      FirstConcat(Tag(g, depth), Levels(AllChildren(g), depth + 1), p);
      LevelsFirst(AllChildren(f), AllChildren(g), depth + 1, p);
      WhereDepth(f, depth, p);
      WhereDepth(g, depth, p);
      WhereDepth(AllChildren(f), depth + 1, p);
      WhereDepth(AllChildren(g), depth + 1, p);
    }
  }

  lemma {:induction false} LevelsLast(f: Forest, g: Forest, depth: nat, p: Test)
    ensures LastWhere(Levels(f + g, depth), p)
         == Deeper(LastWhere(Levels(f, depth), p), LastWhere(Levels(g, depth), p))
    decreases ForestSize(f + g)
  {
    if f == [] {
      assert f + g == g;
    } else if g == [] {
      assert f + g == f;
    } else {
      LevelsConcat(f, g, depth);
      var below := Levels(AllChildren(f) + AllChildren(g), depth + 1);
      LastConcat(Tag(f, depth), Tag(g, depth) + below, p);
      LastConcat(Tag(g, depth), below, p);
      LastConcat(Tag(f, depth), Levels(AllChildren(f), depth + 1), p);
      LastConcat(Tag(g, depth), Levels(AllChildren(g), depth + 1), p);
      LevelsLast(AllChildren(f), AllChildren(g), depth + 1, p);
      WhereDepth(f, depth, p);
      WhereDepth(g, depth, p);
      WhereDepth(AllChildren(f), depth + 1, p);
      WhereDepth(AllChildren(g), depth + 1, p);
    }
  }

  // ----- tree by tree -----

  function FirstIn(t: RoutingInfo, p: Test): Option<Visit> {
    FirstWhere(Levels([t], 0), p)
  }

  function LastIn(t: RoutingInfo, p: Test): Option<Visit> {
    LastWhere(Levels([t], 0), p)
  }

  /** No tree of f shows p on a higher level than t does. */
  ghost predicate IsTop(f: Forest, p: Test, t: RoutingInfo) {
    t in f && FirstIn(t, p).Some? &&
    forall o :: o in f && FirstIn(o, p).Some? ==> FirstIn(t, p).value.1 <= FirstIn(o, p).value.1
  }

  /** No tree of f shows p on a lower level than t does. */
  ghost predicate IsBottom(f: Forest, p: Test, t: RoutingInfo) {
    t in f && LastIn(t, p).Some? &&
    forall o :: o in f && LastIn(o, p).Some? ==> LastIn(o, p).value.1 <= LastIn(t, p).value.1
  }

  /** The first node of a forest with p is that of a top tree. */
  lemma {:induction false} FirstOfForest(f: Forest, p: Test)
    ensures match FirstWhere(Levels(f, 0), p)
            case None => forall t :: t in f ==> FirstIn(t, p).None?
            case Some(v) => exists t :: IsTop(f, p, t) && FirstIn(t, p) == Some(v)
  {
    if f != [] {
      hide FirstWhere, Levels, FirstIn;
      var rest := f[1..];
      assert f == [f[0]] + rest;
      FirstOfForest(rest, p);
      FirstOfTwo(f[0], rest, p);
      var a, b := FirstIn(f[0], p), FirstWhere(Levels(rest, 0), p);
      if b.Some? {
        var t :| IsTop(rest, p, t) && FirstIn(t, p) == b;
        assert a.None? || b.value.1 < a.value.1 ==> IsTop(f, p, t);
      }
      assert a.Some? && (b.None? || a.value.1 <= b.value.1) ==> IsTop(f, p, f[0]);
    } else {
      assert Levels(f, 0) == [];
    }
  }

  lemma FirstOfTwo(t: RoutingInfo, rest: Forest, p: Test)
    ensures FirstWhere(Levels([t] + rest, 0), p) == Shallower(FirstIn(t, p), FirstWhere(Levels(rest, 0), p))
  {
    LevelsFirst([t], rest, 0, p);
  }

  lemma {:induction false} LastOfForest(f: Forest, p: Test)
    ensures match LastWhere(Levels(f, 0), p)
            case None => forall t :: t in f ==> LastIn(t, p).None?
            case Some(v) => exists t :: IsBottom(f, p, t) && LastIn(t, p) == Some(v)
  {
    if f != [] {
      hide LastWhere, Levels, LastIn;
      var rest, last := f[..|f| - 1], f[|f| - 1];
      assert f == rest + [last];
      LastOfForest(rest, p);
      LastOfTwo(rest, last, p);
      var a, b := LastWhere(Levels(rest, 0), p), LastIn(last, p);
      if a.Some? {
        var t :| IsBottom(rest, p, t) && LastIn(t, p) == a;
        assert b.None? || b.value.1 < a.value.1 ==> IsBottom(f, p, t);
      }
      assert b.Some? && (a.None? || a.value.1 <= b.value.1) ==> IsBottom(f, p, last);
    } else {
      assert Levels(f, 0) == [];
    }
  }

  lemma LastOfTwo(rest: Forest, t: RoutingInfo, p: Test)
    ensures LastWhere(Levels(rest + [t], 0), p) == Deeper(LastWhere(Levels(rest, 0), p), LastIn(t, p))
  {
    LevelsLast(rest, [t], 0, p);
  }

  /** f with one tree put in front, and with it put at the end. */
  lemma PutInFront(f: Forest, t: RoutingInfo, p: Test) returns (g: Forest)
    requires IsTop(f, p, t)
    ensures multiset(g) == multiset(f) && FirstWhere(Levels(g, 0), p) == FirstIn(t, p)
  {
    var i :| 0 <= i < |f| && f[i] == t;
    var rest := f[..i] + f[i + 1..];
    g := [t] + rest;
    assert f == f[..i] + [t] + f[i + 1..];
    hide FirstWhere, Levels, FirstIn;
    FirstOfForest(rest, p);
    FirstOfTwo(t, rest, p);
  }

  lemma PutAtEnd(f: Forest, t: RoutingInfo, p: Test) returns (g: Forest)
    requires IsBottom(f, p, t)
    ensures multiset(g) == multiset(f) && LastWhere(Levels(g, 0), p) == LastIn(t, p)
  {
    var i :| 0 <= i < |f| && f[i] == t;
    var rest := f[..i] + f[i + 1..];
    g := rest + [t];
    assert f == f[..i] + [t] + f[i + 1..];
    hide LastWhere, Levels, LastIn;
    LastOfForest(rest, p);
    LastOfTwo(rest, t, p);
  }

  // ----- what the merge looks for -----

  predicate IsTracker(r: RoutingInfo) {
    r.nodeType == Tracker
  }

  function Carries(s: SessionId): Test {
    (r: RoutingInfo) => HasId(r, s)
  }

  function Tells(s: SessionId): Test {
    (r: RoutingInfo) => TtlsOf(r.known, s) != []
  }

  lemma {:induction false} FirstTrackerVisit(visits: seq<Visit>)
    ensures FirstTracker(Trees(visits))
         == match FirstWhere(visits, IsTracker) case None => None case Some(v) => Some(v.0)
  {
    if visits != [] {
      FirstTrackerVisit(visits[1..]);
      assert Trees(visits)[1..] == Trees(visits[1..]);
    }
  }

  lemma {:induction false} LastSightingVisit(visits: seq<Visit>, s: SessionId)
    ensures LastSighting(Trees(visits), s)
         == match LastWhere(visits, Carries(s)) case None => None case Some(v) => Some(v.0.nodeType)
  {
    if visits != [] {
      LastSightingVisit(visits[..|visits| - 1], s);
      assert Trees(visits)[..|visits| - 1] == Trees(visits[..|visits| - 1]);
    }
  }

  lemma {:induction false} TtlsConcat(a: seq<Mention>, b: seq<Mention>, s: SessionId)
    ensures TtlsOf(a + b, s) == TtlsOf(a, s) + TtlsOf(b, s)
  {
    if b == [] {
      assert a + b == a;
    } else {
      assert (a + b)[..|a + b| - 1] == a + b[..|b| - 1];
      TtlsConcat(a, b[..|b| - 1], s);
    }
  }

  /** The first mention of s stands in the first node that mentions it. */
  lemma {:induction false} FirstMentionVisit(visits: seq<Visit>, s: SessionId)
    ensures var ts := TtlsOf(Mentions(Trees(visits)), s);
            match FirstWhere(visits, Tells(s))
            case None => ts == []
            case Some(v) => ts != [] && TtlsOf(v.0.known, s) != [] && ts[0] == TtlsOf(v.0.known, s)[0]
  {
    if visits != [] {
      var init, v := visits[..|visits| - 1], visits[|visits| - 1];
      FirstMentionVisit(init, s);
      assert visits == init + [v];
      var one: seq<Visit> := [v];
      assert one[1..] == [];
      assert FirstWhere(one, Tells(s)) == if Tells(s)(v.0) then Some(v) else None;
      FirstConcat(init, one, Tells(s));
      assert Trees(visits)[..|visits| - 1] == Trees(init);
      TtlsConcat(Mentions(Trees(init)), v.0.known, s);
    }
  }

  // ----- the exact condition -----

  /** The list of the first tracker in a tree that has one. */
  function TrackerListIn(t: RoutingInfo): seq<Mention> {
    match FirstIn(t, IsTracker) case None => [] case Some(v) => TrackerList(Children(v.0))
  }

  predicate EndsAsGateway(t: RoutingInfo, s: SessionId) {
    LastIn(t, Carries(s)).Some? && LastIn(t, Carries(s)).value.0.nodeType == Gateway
  }

  predicate StartsWithZero(t: RoutingInfo, s: SessionId) {
    match FirstIn(t, Tells(s))
    case None => false
    case Some(v) => var ts := TtlsOf(v.0.known, s); ts != [] && ts[0] == 0
  }

  ghost predicate TopTrackersAgree(f: Forest) {
    forall t, o :: IsTop(f, IsTracker, t) && IsTop(f, IsTracker, o) ==> TrackerListIn(t) == TrackerListIn(o)
  }

  ghost predicate BottomTypesAgree(f: Forest, s: SessionId) {
    forall t, o :: IsBottom(f, Carries(s), t) && IsBottom(f, Carries(s), o) ==>
      (EndsAsGateway(t, s) <==> EndsAsGateway(o, s))
  }

  ghost predicate TopMentionsAgree(f: Forest, s: SessionId) {
    forall t, o :: IsTop(f, Tells(s), t) && IsTop(f, Tells(s), o) ==> (StartsWithZero(t, s) <==> StartsWithZero(o, s))
  }

  ghost predicate HasTracker(f: Forest) {
    exists t :: t in f && FirstIn(t, IsTracker).Some?
  }

  ghost predicate Seen(f: Forest, s: SessionId) {
    exists t :: t in f && LastIn(t, Carries(s)).Some?
  }

  /**
   Trees that compete for a place agree on it: those with a tracker on the highest level such a one has, on the
   tracker's list; without trackers, those with a session on the lowest level it has, on its type, and those that
   mention an unseen session on the highest level, on whether its first TTL is zero.
   */
  ghost predicate OrderFree(f: Forest) {
    if HasTracker(f) then TopTrackersAgree(f)
    else forall s :: BottomTypesAgree(f, s) && (Seen(f, s) || TopMentionsAgree(f, s))
  }

  /** No permutation of the received trees changes the lists that may be handed out. */
  ghost predicate OrderIndependent(f: Forest) {
    forall g, list :: multiset(g) == multiset(f) ==> (IsGatewayList(f, list) <==> IsGatewayList(g, list))
  }

  lemma SameMembers(f: Forest, g: Forest)
    requires multiset(f) == multiset(g)
    ensures forall t :: t in f <==> t in g
  {
    forall t ensures t in f <==> t in g {
      assert t in f <==> t in multiset(f);
      assert t in g <==> t in multiset(g);
    }
  }

  lemma TrackerOf(f: Forest)
    ensures match FirstTracker(LevelOrder(f))
            case None => !HasTracker(f)
            case Some(r) => exists t :: IsTop(f, IsTracker, t) && TrackerList(Children(r)) == TrackerListIn(t)
  {
    FirstTrackerVisit(Levels(f, 0));
    FirstOfForest(f, IsTracker);
  }

  lemma SightingOf(f: Forest, s: SessionId)
    ensures LastSighting(LevelOrder(f), s).Some? <==> Seen(f, s)
    ensures Seen(f, s) ==>
              exists t :: IsBottom(f, Carries(s), t) && (LastSighting(LevelOrder(f), s) == Some(Gateway) <==> EndsAsGateway(t, s))
  {
    hide FirstIn, Levels;
    assert LevelOrder(f) == Trees(Levels(f, 0));
    LastSightingVisit(Levels(f, 0), s);
    LastOfForest(f, Carries(s));
  }

  lemma MentionOf(f: Forest, s: SessionId)
    ensures var ts := TtlsOf(Mentions(LevelOrder(f)), s);
            ts != [] ==> exists t :: IsTop(f, Tells(s), t) && (ts[0] == 0 <==> StartsWithZero(t, s))
  {
    hide LastIn, Levels;
    assert LevelOrder(f) == Trees(Levels(f, 0));
    FirstMentionVisit(Levels(f, 0), s);
    FirstOfForest(f, Tells(s));
  }

  // ----- the condition suffices -----

  lemma MergedSame(a: seq<u32>, b: seq<u32>)
    requires forall t :: t in a <==> t in b
    requires a != [] && b != [] ==> (a[0] == 0 <==> b[0] == 0)
    ensures MergedTtl(a) == MergedTtl(b)
  {
    assert a != [] ==> a[0] in b;
    assert b != [] ==> b[0] in a;
  }

  lemma SameMentionTtls(f: Forest, g: Forest, s: SessionId, t: u32)
    requires multiset(f) == multiset(g)
    ensures t in TtlsOf(Mentions(LevelOrder(f)), s) <==> t in TtlsOf(Mentions(LevelOrder(g)), s)
  {
    hide LevelOrder;
    SameMembers(f, g);
    SameTreesSameNodes(f, g);
    SameTreesSameNodes(g, f);
    MentionedTtls(LevelOrder(f), s, t);
    MentionedTtls(LevelOrder(g), s, t);
  }

  lemma SameExpected(f: Forest, g: Forest, s: SessionId)
    requires multiset(f) == multiset(g)
    requires BottomTypesAgree(f, s) && (Seen(f, s) || TopMentionsAgree(f, s))
    ensures ExpectedTtl(LevelOrder(f), s) == ExpectedTtl(LevelOrder(g), s)
  {
    hide LevelOrder, FirstIn, LastIn, EndsAsGateway, StartsWithZero;
    SameMembers(f, g);
    SightingOf(f, s);
    SightingOf(g, s);
    if !Seen(f, s) {
      var a, b := TtlsOf(Mentions(LevelOrder(f)), s), TtlsOf(Mentions(LevelOrder(g)), s);
      forall t: u32 ensures t in a <==> t in b {
        SameMentionTtls(f, g, s, t);
      }
      MentionOf(f, s);
      MentionOf(g, s);
      MergedSame(a, b);
    }
  }

  lemma FreeSuffices(f: Forest, g: Forest, list: seq<Mention>)
    requires OrderFree(f) && multiset(f) == multiset(g)
    ensures IsGatewayList(f, list) <==> IsGatewayList(g, list)
  {
    hide LevelOrder, FirstIn, LastIn, TrackerListIn, ExpectedTtl;
    SameMembers(f, g);
    TrackerOf(f);
    TrackerOf(g);
    if !HasTracker(f) {
      forall s ensures ExpectedTtl(LevelOrder(f), s) == ExpectedTtl(LevelOrder(g), s) {
        SameExpected(f, g, s);
      }
    }
  }

  // ----- the condition is needed -----

  lemma {:induction false} ListOfMap(m: Ttls) returns (list: seq<Mention>)
    ensures DistinctIds(list)
    ensures forall o :: o in list <==> Find(m, o.sessionId) == Some(o.ttl)
  {
    if m == map[] {
      list := [];
    } else {
      var s :| s in m;
      list := ListOfMap(m - {s});
      list := list + [Mention(s, m[s])];
    }
  }

  /** The merge always has a list to hand out. */
  lemma ListExists(f: Forest) returns (list: seq<Mention>)
    ensures IsGatewayList(f, list)
  {
    var nodes := LevelOrder(f);
    match FirstTracker(nodes)
    case Some(tracker) => list := TrackerList(Children(tracker));
    case None =>
      list := ListOfMap(SightPass(MentionPass(Mentions(nodes)), nodes));
      forall o ensures o in list <==> ExpectedTtl(nodes, o.sessionId) == Some(o.ttl) {
        MergeMeaning(nodes, o.sessionId);
      }
  }

  lemma IndependentTrackers(f: Forest, t: RoutingInfo, o: RoutingInfo)
    requires OrderIndependent(f) && IsTop(f, IsTracker, t) && IsTop(f, IsTracker, o)
    ensures TrackerListIn(t) == TrackerListIn(o)
  {
    hide FirstIn;
    var g := PutInFront(f, t, IsTracker);
    var h := PutInFront(f, o, IsTracker);
    FirstTrackerVisit(Levels(g, 0));
    FirstTrackerVisit(Levels(h, 0));
    hide Levels;
    assert LevelOrder(g) == Trees(Levels(g, 0)) && LevelOrder(h) == Trees(Levels(h, 0));
    assert IsGatewayList(g, TrackerListIn(t)) && IsGatewayList(f, TrackerListIn(t));
    assert IsGatewayList(h, TrackerListIn(t));
  }

  /** Two permutations without trackers expect the same. */
  lemma IndependentExpected(f: Forest, g: Forest, h: Forest, s: SessionId)
    requires OrderIndependent(f) && !HasTracker(f) && multiset(g) == multiset(f) == multiset(h)
    ensures ExpectedTtl(LevelOrder(g), s) == ExpectedTtl(LevelOrder(h), s)
  {
    hide LevelOrder, FirstIn, ExpectedTtl;
    SameMembers(f, g);
    SameMembers(f, h);
    TrackerOf(g);
    TrackerOf(h);
    var list := ListExists(f);
    assert IsGatewayList(g, list) && IsGatewayList(h, list);
    var a, b := ExpectedTtl(LevelOrder(g), s), ExpectedTtl(LevelOrder(h), s);
    assert a.Some? ==> Mention(s, a.value) in list;
    assert b.Some? ==> Mention(s, b.value) in list;
  }

  lemma IndependentTypes(f: Forest, s: SessionId, t: RoutingInfo, o: RoutingInfo)
    requires OrderIndependent(f) && !HasTracker(f) && IsBottom(f, Carries(s), t) && IsBottom(f, Carries(s), o)
    ensures EndsAsGateway(t, s) <==> EndsAsGateway(o, s)
  {
    hide OrderIndependent, LastIn, Levels, HasTracker;
    var g := PutAtEnd(f, t, Carries(s));
    var h := PutAtEnd(f, o, Carries(s));
    LastSightingVisit(Levels(g, 0), s);
    LastSightingVisit(Levels(h, 0), s);
    assert LevelOrder(g) == Trees(Levels(g, 0)) && LevelOrder(h) == Trees(Levels(h, 0));
    IndependentExpected(f, g, h, s);
  }

  lemma IndependentMentions(f: Forest, s: SessionId, t: RoutingInfo, o: RoutingInfo)
    requires OrderIndependent(f) && !HasTracker(f) && !Seen(f, s)
    requires IsTop(f, Tells(s), t) && IsTop(f, Tells(s), o)
    ensures StartsWithZero(t, s) <==> StartsWithZero(o, s)
  {
    hide OrderIndependent, FirstIn, LastIn, Levels, HasTracker;
    var g := PutInFront(f, t, Tells(s));
    var h := PutInFront(f, o, Tells(s));
    SameMembers(f, g);
    SameMembers(f, h);
    SightingOf(g, s);
    SightingOf(h, s);
    FirstMentionVisit(Levels(g, 0), s);
    FirstMentionVisit(Levels(h, 0), s);
    assert LevelOrder(g) == Trees(Levels(g, 0)) && LevelOrder(h) == Trees(Levels(h, 0));
    IndependentExpected(f, g, h, s);
  }

  /** The merge is independent of the order of the received trees exactly when competing trees agree. */
  lemma OrderFreeExactly(f: Forest)
    ensures OrderIndependent(f) <==> OrderFree(f)
  {
    hide IsTop, IsBottom, Seen, HasTracker, TrackerListIn, EndsAsGateway, StartsWithZero, IsGatewayList;
    if OrderFree(f) {
      forall g, list | multiset(g) == multiset(f) ensures IsGatewayList(f, list) <==> IsGatewayList(g, list) {
        FreeSuffices(f, g, list);
      }
    }
    if OrderIndependent(f) {
      if HasTracker(f) {
        forall t, o | IsTop(f, IsTracker, t) && IsTop(f, IsTracker, o) ensures TrackerListIn(t) == TrackerListIn(o) {
          IndependentTrackers(f, t, o);
        }
      } else {
        forall s ensures BottomTypesAgree(f, s) && (Seen(f, s) || TopMentionsAgree(f, s)) {
          NeededFor(f, s);
        }
      }
    }
  }

  lemma NeededFor(f: Forest, s: SessionId)
    requires OrderIndependent(f) && !HasTracker(f)
    ensures BottomTypesAgree(f, s) && (Seen(f, s) || TopMentionsAgree(f, s))
  {
    hide OrderIndependent, IsTop, IsBottom, Seen, HasTracker, EndsAsGateway, StartsWithZero;
    forall t, o | IsBottom(f, Carries(s), t) && IsBottom(f, Carries(s), o)
      ensures EndsAsGateway(t, s) <==> EndsAsGateway(o, s)
    {
      IndependentTypes(f, s, t, o);
    }
    if !Seen(f, s) {
      forall t, o | IsTop(f, Tells(s), t) && IsTop(f, Tells(s), o) ensures StartsWithZero(t, s) <==> StartsWithZero(o, s) {
        IndependentMentions(f, s, t, o);
      }
    }
  }
}
