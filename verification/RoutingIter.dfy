/** The queue-based breadth-first iterators over routing trees. */
module RoutingIter {
  import opened Options
  import opened RoutingInfos
  import opened Sequences

  /** A node together with its depth. */
  type Visit = (RoutingInfo, nat)

  /** The number of nodes of a tree, and of a forest. */
  function Size(t: RoutingInfo): nat
    decreases t, 1
  {
    match t.relation
    case Infos(infos) => 1 + ForestSize(infos)
    case _ => 1
  }

  function ForestSize(f: Forest): nat
    decreases f, 0
  {
    if f == [] then 0 else Size(f[0]) + ForestSize(f[1..])
  }

  function Tag(f: Forest, depth: nat): seq<Visit> {
    seq(|f|, i requires 0 <= i < |f| => (f[i], depth))
  }

  function Trees(q: seq<Visit>): Forest {
    seq(|q|, i requires 0 <= i < |q| => q[i].0)
  }

  function AllChildren(f: Forest): Forest {
    if f == [] then [] else Children(f[0]) + AllChildren(f[1..])
  }

  lemma {:induction false} ForestSizeConcat(a: Forest, b: Forest)
    ensures ForestSize(a + b) == ForestSize(a) + ForestSize(b)
  {
    if a == [] {
      assert a + b == b;
    } else {
      assert (a + b)[1..] == a[1..] + b;
      ForestSizeConcat(a[1..], b);
    }
  }

  lemma {:induction false} ForestSizeChildren(f: Forest)
    ensures ForestSize(AllChildren(f)) == ForestSize(f) - |f|
  {
    if f != [] {
      ForestSizeConcat(Children(f[0]), AllChildren(f[1..]));
      ForestSizeChildren(f[1..]);
    }
  }

  /** Reference order: all nodes of one level, then the levels below. */
  function Levels(f: Forest, depth: nat): seq<Visit>
    decreases ForestSize(f)
  {
    if f == [] then []
    else
      ForestSizeChildren(f);
      Tag(f, depth) + Levels(AllChildren(f), depth + 1)
  }

  function LevelOrder(f: Forest): Forest {
    Trees(Levels(f, 0))
  }

  /** What is left in the queue after its first visit is taken and that node's children appended. */
  function Advance(q: seq<Visit>): seq<Visit>
    requires q != []
  {
    q[1..] + Tag(Children(q[0].0), q[0].1 + 1)
  }

  function QueueSize(q: seq<Visit>): nat {
    ForestSize(Trees(q))
  }

  lemma AdvanceShrinks(q: seq<Visit>)
    requires q != []
    ensures QueueSize(Advance(q)) == QueueSize(q) - 1
  {
    var kids := Children(q[0].0);
    assert Trees(Advance(q)) == Trees(q[1..]) + kids;
    ForestSizeConcat(Trees(q[1..]), kids);
    assert Trees(q)[1..] == Trees(q[1..]);
    assert Size(Trees(q)[0]) == 1 + ForestSize(kids);
  }

  /** Everything a queue will still yield. */
  function Drain(q: seq<Visit>): seq<Visit>
    decreases QueueSize(q)
  {
    if q == [] then []
    else
      AdvanceShrinks(q);
      [q[0]] + Drain(Advance(q))
  }

  /** A queue in the middle of a level: the rest of that level, then the children gathered so far. */
  function Bands(front: Forest, back: Forest, depth: nat): seq<Visit> {
    Tag(front, depth) + Tag(back, depth + 1)
  }

  lemma AdvanceBands(front: Forest, back: Forest, depth: nat)
    requires front != []
    ensures Advance(Bands(front, back, depth)) == Bands(front[1..], back + Children(front[0]), depth)
    ensures Drain(Bands(front, back, depth))
         == [(front[0], depth)] + Drain(Bands(front[1..], back + Children(front[0]), depth))
  {
    var q := Bands(front, back, depth);
    assert q[0] == (front[0], depth);
    assert Advance(q) == Bands(front[1..], back + Children(front[0]), depth);
  }

  /** Such a queue drains level by level. */
  lemma {:induction false} DrainBands(front: Forest, back: Forest, depth: nat)
    ensures Drain(Bands(front, back, depth))
         == Tag(front, depth) + Levels(back + AllChildren(front), depth + 1)
    decreases ForestSize(front) + ForestSize(back), |back|
  {
    if front != [] {
      var kids := Children(front[0]);
      assert Size(front[0]) == 1 + ForestSize(kids);
      ForestSizeConcat(back, kids);
      AdvanceBands(front, back, depth);
      DrainBands(front[1..], back + kids, depth);
      assert back + kids + AllChildren(front[1..]) == back + AllChildren(front);
      assert Tag(front, depth) == [(front[0], depth)] + Tag(front[1..], depth);
    } else if back != [] {
      assert Bands(front, back, depth) == Bands(back, [], depth + 1);
      DrainBands(back, [], depth + 1);
      assert back + AllChildren(front) == back;
      assert [] + AllChildren(back) == AllChildren(back);
    } else {
      assert Bands(front, back, depth) == [];
    }
  }

  /** The queue yields exactly the level order. */
  lemma DrainIsLevelOrder(f: Forest)
    ensures Drain(Tag(f, 0)) == Levels(f, 0)
  {
    DrainBands(f, [], 0);
    assert Bands(f, [], 0) == Tag(f, 0);
    assert [] + AllChildren(f) == AllChildren(f);
  }

  /** Depth-first listing with depths: every occurrence of every node exactly once, by structure alone. */
  function Preorder(t: RoutingInfo, depth: nat): seq<Visit>
    decreases t, 1
  {
    match t.relation
    case Infos(infos) => [(t, depth)] + PreorderAll(infos, depth + 1)
    case _ => [(t, depth)]
  }

  function PreorderAll(f: Forest, depth: nat): seq<Visit>
    decreases f, 0
  {
    if f == [] then [] else Preorder(f[0], depth) + PreorderAll(f[1..], depth)
  }

  lemma {:induction false} PreorderConcat(a: Forest, b: Forest, depth: nat)
    ensures PreorderAll(a + b, depth) == PreorderAll(a, depth) + PreorderAll(b, depth)
  {
    if a == [] {
      assert a + b == b;
    } else {
      assert (a + b)[1..] == a[1..] + b;
      PreorderConcat(a[1..], b, depth);
    }
  }

  lemma {:induction false} PreorderByLevel(f: Forest, depth: nat)
    ensures multiset(PreorderAll(f, depth))
         == multiset(Tag(f, depth)) + multiset(PreorderAll(AllChildren(f), depth + 1))
  {
    if f != [] {
      PreorderByLevel(f[1..], depth);
      PreorderConcat(Children(f[0]), AllChildren(f[1..]), depth + 1);
      PreorderCons(f, depth);
      assert AllChildren(f) == Children(f[0]) + AllChildren(f[1..]);
      hide Preorder, PreorderAll, Tag, AllChildren, Children;
      Shuffle((f[0], depth), PreorderAll(Children(f[0]), depth + 1), PreorderAll(f[1..], depth),
              Tag(f[1..], depth), PreorderAll(AllChildren(f[1..]), depth + 1));
    }
  }

  lemma PreorderCons(f: Forest, depth: nat)
    requires f != []
    ensures PreorderAll(f, depth) == [(f[0], depth)] + PreorderAll(Children(f[0]), depth + 1) + PreorderAll(f[1..], depth)
    ensures Tag(f, depth) == [(f[0], depth)] + Tag(f[1..], depth)
  {
    assert Preorder(f[0], depth) == [(f[0], depth)] + PreorderAll(Children(f[0]), depth + 1);
  }

  lemma Shuffle<T>(v: T, below: seq<T>, rest: seq<T>, level: seq<T>, deeper: seq<T>)
    requires multiset(rest) == multiset(level) + multiset(deeper)
    ensures multiset([v] + below + rest) == multiset([v] + level) + multiset(below + deeper)
  {
  }

  /** The level order visits every node occurrence exactly once, at its structural depth. */
  lemma {:induction false} LevelsVisitEachNodeOnce(f: Forest, depth: nat)
    ensures multiset(Levels(f, depth)) == multiset(PreorderAll(f, depth))
    decreases ForestSize(f)
  {
    if f != [] {
      ForestSizeChildren(f);
      LevelsVisitEachNodeOnce(AllChildren(f), depth + 1);
      PreorderByLevel(f, depth);
    }
  }

  lemma LevelOrderMembers(f: Forest, depth: nat)
    ensures forall v :: v in Levels(f, depth) <==> v in PreorderAll(f, depth)
  {
    LevelsVisitEachNodeOnce(f, depth);
    forall v ensures v in Levels(f, depth) <==> v in PreorderAll(f, depth) {
      assert v in Levels(f, depth) <==> v in multiset(Levels(f, depth));
      assert v in PreorderAll(f, depth) <==> v in multiset(PreorderAll(f, depth));
    }
  }

  /** Depths start at `depth`, never decrease, and skip no level. */
  ghost predicate LevelByLevel(visits: seq<Visit>, depth: nat) {
    && (visits != [] ==> visits[0].1 == depth)
    && (forall i, j :: 0 <= i < j < |visits| ==> visits[i].1 <= visits[j].1)
    && (forall i :: 0 < i < |visits| ==> visits[i].1 <= visits[i - 1].1 + 1)
  }

  lemma LevelByLevelConcat(f: Forest, depth: nat, below: seq<Visit>)
    requires f != [] && LevelByLevel(below, depth + 1)
    ensures LevelByLevel(Tag(f, depth) + below, depth)
  {
    var visits := Tag(f, depth) + below;
    forall i | 0 <= i < |visits| ensures i < |f| ==> visits[i].1 == depth
                                 ensures |f| <= i ==> visits[i] == below[i - |f|] && visits[i].1 >= depth + 1 {
    }
  }

  lemma {:induction false} LevelsAscend(f: Forest, depth: nat)
    ensures LevelByLevel(Levels(f, depth), depth)
    decreases ForestSize(f)
  {
    if f != [] {
      ForestSizeChildren(f);
      LevelsAscend(AllChildren(f), depth + 1);
      LevelByLevelConcat(f, depth, Levels(AllChildren(f), depth + 1));
    }
  }

  function IfAt(v: Visit, k: nat): seq<Visit> {
    if v.1 == k then [v] else []
  }

  /** The visits of one level, in their order. */
  function AtDepth(visits: seq<Visit>, k: nat): seq<Visit> {
    if visits == [] then [] else IfAt(visits[0], k) + AtDepth(visits[1..], k)
  }

  lemma AtDepthCons(visits: seq<Visit>, k: nat)
    requires visits != []
    ensures AtDepth(visits, k) == IfAt(visits[0], k) + AtDepth(visits[1..], k)
  {
  }

  lemma {:induction false} AtDepthConcat(a: seq<Visit>, b: seq<Visit>, k: nat)
    ensures AtDepth(a + b, k) == AtDepth(a, k) + AtDepth(b, k)
  {
    if a == [] {
      Empty(a, b);
      Empty(AtDepth(a, k), AtDepth(b, k));
    } else {
      AtDepthConcat(a[1..], b, k);
      AtDepthCons(a, k);
      AtDepthCons(a + b, k);
      hide AtDepth, IfAt;
      Uncons(a, b);
      Associate(IfAt(a[0], k), AtDepth(a[1..], k), AtDepth(b, k));
    }
  }

  lemma {:induction false} AtDepthTag(f: Forest, depth: nat, k: nat)
    ensures AtDepth(Tag(f, depth), k) == if k == depth then Tag(f, depth) else []
  {
    if f != [] {
      assert Tag(f, depth)[1..] == Tag(f[1..], depth);
      AtDepthTag(f[1..], depth, k);
      assert Tag(f, depth) == [(f[0], depth)] + Tag(f[1..], depth);
    }
  }

  lemma AtDepthNone(visits: seq<Visit>, k: nat)
    requires forall v :: v in visits ==> v.1 > k
    ensures AtDepth(visits, k) == []
  {
    if visits != [] {
      assert visits[0] in visits;
      AtDepthNone(visits[1..], k);
    }
  }

  lemma {:induction false} PreorderDeeper(f: Forest, depth: nat)
    ensures forall v :: v in PreorderAll(f, depth) ==> v.1 >= depth
  {
    LevelsVisitEachNodeOnce(f, depth);
    LevelOrderMembers(f, depth);
    LevelsAscend(f, depth);
  }

  /** One level down, the preorder of a forest is that of its trees' children. */
  lemma {:induction false} PreorderBelow(f: Forest, depth: nat, k: nat)
    requires k > depth
    ensures AtDepth(PreorderAll(f, depth), k) == AtDepth(PreorderAll(AllChildren(f), depth + 1), k)
  {
    if f != [] {
      var rest, below := f[1..], PreorderAll(Children(f[0]), depth + 1);
      PreorderBelow(rest, depth, k);
      PreorderCons(f, depth);
      PreorderConcat(Children(f[0]), AllChildren(rest), depth + 1);
      assert AllChildren(f) == Children(f[0]) + AllChildren(rest);
      assert AtDepth([(f[0], depth)], k) == [];
      AtDepthConcat([(f[0], depth)] + below, PreorderAll(rest, depth), k);
      AtDepthConcat([(f[0], depth)], below, k);
      AtDepthConcat(below, PreorderAll(AllChildren(rest), depth + 1), k);
    }
  }

  lemma {:induction false} PreorderTop(f: Forest, depth: nat)
    ensures AtDepth(PreorderAll(f, depth), depth) == Tag(f, depth)
  {
    if f != [] {
      var rest, below := f[1..], PreorderAll(Children(f[0]), depth + 1);
      PreorderTop(rest, depth);
      PreorderCons(f, depth);
      PreorderDeeper(Children(f[0]), depth + 1);
      AtDepthNone(below, depth);
      AtDepthConcat([(f[0], depth)] + below, PreorderAll(rest, depth), depth);
      AtDepthConcat([(f[0], depth)], below, depth);
      assert AtDepth([(f[0], depth)], depth) == [(f[0], depth)];
    }
  }

  /** Within a level the order is that of the trees themselves: parents from left to right, and theirs so too. */
  lemma {:induction false} LevelsKeepOrder(f: Forest, depth: nat, k: nat)
    ensures AtDepth(Levels(f, depth), k) == AtDepth(PreorderAll(f, depth), k)
    decreases ForestSize(f)
  {
    if f != [] {
      ForestSizeChildren(f);
      var below := Levels(AllChildren(f), depth + 1);
      AtDepthConcat(Tag(f, depth), below, k);
      AtDepthTag(f, depth, k);
      LevelsAscend(AllChildren(f), depth + 1);
      if k < depth {
        LevelsAscend(f, depth);
        AtDepthNone(Levels(f, depth), k);
        PreorderDeeper(f, depth);
        AtDepthNone(PreorderAll(f, depth), k);
      } else if k == depth {
        PreorderTop(f, depth);
        AtDepthNone(below, k);
      } else {
        LevelsKeepOrder(AllChildren(f), depth + 1, k);
        PreorderBelow(f, depth, k);
      }
    }
  }

  /** Queued depths never decrease and span at most two adjacent levels. */
  ghost predicate Banded(q: seq<Visit>) {
    && (forall i, j :: 0 <= i < j < |q| ==> q[i].1 <= q[j].1)
    && (forall i :: 0 <= i < |q| ==> q[i].1 <= q[0].1 + 1)
  }

  class RecursiveIteratorWithDepth {
    var stack: seq<Visit>

    constructor (roots: Forest)
      ensures stack == Tag(roots, 0)
      ensures Banded(stack)
    {
      stack := Tag(roots, 0);
    }

    method Next() returns (cur: Option<Visit>)
      requires Banded(stack)
      modifies this
      ensures Banded(stack)
      ensures cur.None? <==> old(stack) == []
      ensures cur.None? ==> stack == []
      ensures cur.Some? ==> Drain(old(stack)) == [cur.value] + Drain(stack)
      ensures cur.Some? ==> QueueSize(stack) == QueueSize(old(stack)) - 1
    {
      if stack == [] {
        return None;
      }
      AdvanceShrinks(stack);
      var first := stack[0];
      stack := stack[1..];
      var relations := Children(first.0);
      var i := 0;
      while i < |relations|
        invariant 0 <= i <= |relations|
        invariant stack == old(stack)[1..] + Tag(relations[..i], first.1 + 1)
      {
        stack := stack + [(relations[i], first.1 + 1)];
        i := i + 1;
      }
      assert relations[..i] == relations;
      return Some(first);
    }
  }

  /** Runs the iterator to its end. */
  method CollectWithDepth(f: Forest) returns (all: seq<Visit>)
    ensures all == Levels(f, 0)
  {
    var iter := new RecursiveIteratorWithDepth(f);
    DrainIsLevelOrder(f);
    all := [];
    while true
      invariant Banded(iter.stack)
      invariant all + Drain(iter.stack) == Levels(f, 0)
      decreases QueueSize(iter.stack)
    {
      var v := iter.Next();
      if v.None? {
        return;
      }
      all := all + [v.value];
    }
  }

  function FoldLeft<B, A>(f: (B, A) -> B, init: B, xs: seq<A>): B {
    if xs == [] then init else FoldLeft(f, f(init, xs[0]), xs[1..])
  }

  /** The fold goes through its list from the front, every element once. */
  lemma {:induction false} FoldLeftConcat<B, A>(f: (B, A) -> B, init: B, xs: seq<A>, ys: seq<A>)
    ensures FoldLeft(f, init, xs + ys) == FoldLeft(f, FoldLeft(f, init, xs), ys)
    ensures |xs| == 1 ==> FoldLeft(f, init, xs) == f(init, xs[0])
  {
    if xs == [] {
      assert xs + ys == ys;
    } else {
      assert (xs + ys)[1..] == xs[1..] + ys;
      FoldLeftConcat(f, f(init, xs[0]), xs[1..], ys);
    }
  }

  lemma {:induction false} FoldCounts<A>(init: int, xs: seq<A>)
    ensures FoldLeft((n: int, x: A) => n + 1, init, xs) == init + |xs|
    decreases |xs|
  {
    if xs != [] {
      FoldCounts(init + 1, xs[1..]);
    }
  }

  lemma {:induction false} LevelsSize(f: Forest, depth: nat)
    ensures |Levels(f, depth)| == ForestSize(f)
    decreases ForestSize(f)
  {
    if f != [] {
      ForestSizeChildren(f);
      LevelsSize(AllChildren(f), depth + 1);
    }
  }

  /** Counting by `fold` counts the nodes of the tree. */
  lemma FoldCountsNodes(t: RoutingInfo)
    ensures FoldLeft((n: int, r: RoutingInfo) => n + 1, 0, LevelOrder([t])) == Size(t)
  {
    FoldCounts(0, LevelOrder([t]));
    LevelsSize([t], 0);
    assert [t][1..] == [];
  }

  lemma FoldStep<B>(f: (B, RoutingInfo) -> B, acc: B, v: Visit, rest: seq<Visit>)
    ensures FoldLeft(f, acc, Trees([v] + rest)) == FoldLeft(f, f(acc, v.0), Trees(rest))
  {
    assert Trees([v] + rest)[0] == v.0;
    assert Trees([v] + rest)[1..] == Trees(rest);
  }

  /** `fold` consumes the iterator and is the left fold over the level order. */
  method Fold<B>(t: RoutingInfo, init: B, f: (B, RoutingInfo) -> B) returns (acc: B)
    ensures acc == FoldLeft(f, init, LevelOrder([t]))
  {
    var iter := new RecursiveIteratorWithDepth([t]);
    DrainIsLevelOrder([t]);
    acc := init;
    while true
      invariant Banded(iter.stack)
      invariant FoldLeft(f, acc, Trees(Drain(iter.stack))) == FoldLeft(f, init, LevelOrder([t]))
      decreases QueueSize(iter.stack)
    {
      var v := iter.Next();
      if v.None? {
        return;
      }
      FoldStep(f, acc, v.value, Drain(iter.stack));
      acc := f(acc, v.value.0);
    }
  }
}
