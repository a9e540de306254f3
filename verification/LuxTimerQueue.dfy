/**
  The queue of armed subscribers of the Lux clock: a search tree with a cached first node.

  The enqueue walk sends a LATER deadline to the left, so the walk of the tree in order goes
  from the latest deadline to the earliest, and the cached first node is the latest one.
  Rebalancing is the kernel library's; it keeps the walk, and nothing below depends on more.
*/
module LuxTimerQueue {
  import opened Wrappers

  const U64 := 0x1_0000_0000_0000_0000

  /**
    A subscriber of the clock. `offset` is its 64-bit time offset, `deadline` is in its own
    time, `phys` the same instant in the time of the device.
  */
  datatype Sub = Sub(id: nat, offset: nat, deadline: nat, phys: nat, delta: nat,
                     periodic: bool, irqData: nat)

  datatype Tree = Leaf | Node(left: Tree, sub: Sub, right: Tree)

  function Walk(t: Tree): seq<Sub> {
    match t
    case Leaf => []
    case Node(l, s, r) => Walk(l) + [s] + Walk(r)
  }

  /** Latest deadline first. */
  ghost predicate Sorted(q: seq<Sub>) {
    forall i, j | 0 <= i < j < |q| :: q[i].phys >= q[j].phys
  }

  ghost predicate Distinct(q: seq<Sub>) {
    forall i, j | 0 <= i < j < |q| :: q[i].id != q[j].id
  }

  predicate Has(q: seq<Sub>, id: nat) {
    exists i | 0 <= i < |q| :: q[i].id == id
  }

  /** All of `q` is earlier than `s`. */
  ghost predicate AllEarlier(q: seq<Sub>, s: Sub) {
    forall i | 0 <= i < |q| :: q[i].phys < s.phys
  }

  /** `s` goes behind everything that is not earlier. */
  function Insert(q: seq<Sub>, s: Sub): seq<Sub> {
    if q == [] || q[0].phys < s.phys then [s] + q else [q[0]] + Insert(q[1..], s)
  }

  function Place(q: seq<Sub>, s: Sub): (k: nat)
    ensures k <= |q|
  {
    if q == [] || q[0].phys < s.phys then 0 else 1 + Place(q[1..], s)
  }

  lemma {:induction false} InsertAtPlace(q: seq<Sub>, s: Sub)
    ensures var k := Place(q, s); Insert(q, s) == q[..k] + [s] + q[k..]
  {
    if q != [] && q[0].phys >= s.phys {
      InsertAtPlace(q[1..], s);
      var k := Place(q[1..], s);
      assert q[..k + 1] == [q[0]] + q[1..][..k];
      assert q[k + 1..] == q[1..][k..];
    }
  }

  lemma {:induction false} PlaceBounds(q: seq<Sub>, s: Sub)
    requires Sorted(q)
    ensures var k := Place(q, s);
            && (forall i | 0 <= i < k :: q[i].phys >= s.phys)
            && (forall i | k <= i < |q| :: q[i].phys < s.phys)
  {
    if q != [] && q[0].phys >= s.phys {
      PlaceBounds(q[1..], s);
      forall i | 0 < i < |q|
        ensures q[1..][i - 1] == q[i]
      {
      }
    }
  }

  /**
    The queue stays sorted and gains exactly the new subscriber, behind the ones with the
    same deadline.
  */
  lemma InsertKeepsOrder(q: seq<Sub>, s: Sub)
    requires Sorted(q)
    ensures Sorted(Insert(q, s))
    ensures var k := Place(q, s);
            && Insert(q, s) == q[..k] + [s] + q[k..]
            && (forall i | 0 <= i < k :: q[i].phys >= s.phys)
            && (forall i | k <= i < |q| :: q[i].phys < s.phys)
  {
    InsertAtPlace(q, s);
    PlaceBounds(q, s);
    hide Insert, Place;
  }

  lemma {:induction false} InsertMembers(q: seq<Sub>, s: Sub)
    ensures forall x :: x in Insert(q, s) <==> x in q || x == s
  {
    if q == [] || q[0].phys < s.phys {
    } else {
      InsertMembers(q[1..], s);
      assert q == [q[0]] + q[1..];
    }
  }

  lemma {:induction false} InsertLeft(a: seq<Sub>, p: Sub, b: seq<Sub>, s: Sub)
    requires p.phys < s.phys
    ensures Insert(a + [p] + b, s) == Insert(a, s) + [p] + b
  {
    if a == [] || a[0].phys < s.phys {
    } else {
      assert (a + [p] + b)[1..] == a[1..] + [p] + b;
      InsertLeft(a[1..], p, b, s);
    }
  }

  lemma {:induction false} InsertRight(a: seq<Sub>, p: Sub, b: seq<Sub>, s: Sub)
    requires p.phys >= s.phys && forall i | 0 <= i < |a| :: a[i].phys >= p.phys
    ensures Insert(a + [p] + b, s) == a + [p] + Insert(b, s)
  {
    if a == [] {
      assert ([] + [p] + b)[1..] == b;
    } else {
      assert (a + [p] + b)[1..] == a[1..] + [p] + b;
      InsertRight(a[1..], p, b, s);
    }
  }

  lemma EarlierLeft(a: seq<Sub>, p: Sub, b: seq<Sub>, s: Sub)
    requires Sorted(a + [p] + b)
    ensures AllEarlier(a + [p] + b, s) <==> p.phys < s.phys && AllEarlier(a, s)
  {
    var q := a + [p] + b;
    assert q[|a|] == p && forall i | 0 <= i < |a| :: q[i] == a[i];
    if p.phys < s.phys && AllEarlier(a, s) {
      forall i | 0 <= i < |q|
        ensures q[i].phys < s.phys
      {
        if i > |a| {
          assert q[|a|].phys >= q[i].phys;
        }
      }
    }
  }

  // ---- The enqueue walk ------------------------------------------------------------------

  /** The tree with `s` linked where the walk ends. */
  function LinkInto(t: Tree, s: Sub): Tree {
    match t
    case Leaf => Node(Leaf, s, Leaf)
    case Node(l, p, r) =>
      if p.phys < s.phys then Node(LinkInto(l, s), p, r) else Node(l, p, LinkInto(r, s))
  }

  lemma SortedParts(a: seq<Sub>, p: Sub, b: seq<Sub>)
    requires Sorted(a + [p] + b)
    ensures Sorted(a) && Sorted(b)
    ensures forall i | 0 <= i < |a| :: a[i].phys >= p.phys
  {
    var q, n := a + [p] + b, |a| + 1;
    assert q[|a|] == p;
    assert forall i | 0 <= i < |a| :: q[i] == a[i];
    assert forall i | 0 <= i < |b| :: q[n + i] == b[i];
  }

  /** Linking into the tree inserts into the walk. */
  lemma {:induction false} LinkInserts(t: Tree, s: Sub)
    requires Sorted(Walk(t))
    ensures Walk(LinkInto(t, s)) == Insert(Walk(t), s)
  {
    match t
    case Leaf =>
    case Node(l, p, r) =>
      hide Insert, Sorted;
      SortedParts(Walk(l), p, Walk(r));
      if p.phys < s.phys {
        LinkInserts(l, s);
        InsertLeft(Walk(l), p, Walk(r), s);
      } else {
        LinkInserts(r, s);
        InsertRight(Walk(l), p, Walk(r), s);
      }
  }

  /** However the library balances the tree, the next insertion gives the same walk. */
  lemma ShapeDoesNotMatter(t: Tree, u: Tree, s: Sub)
    requires Walk(t) == Walk(u) && Sorted(Walk(t))
    ensures Walk(LinkInto(t, s)) == Walk(LinkInto(u, s))
  {
    LinkInserts(t, s);
    LinkInserts(u, s);
  }

  lemma RotationKeepsWalk(a: Tree, x: Sub, b: Tree, y: Sub, c: Tree)
    ensures Walk(Node(Node(a, x, b), y, c)) == Walk(Node(a, x, Node(b, y, c)))
  {
    assert Walk(a) + [x] + Walk(b) + [y] + Walk(c) == Walk(a) + [x] + (Walk(b) + [y] + Walk(c));
  }

  /** One step of the walk down: the node passed, and the side taken. */
  datatype Turn = Turn(node: Tree, left: bool)

  /** Put `t` back at the end of the path `up`. */
  function Plug(up: seq<Turn>, t: Tree): Tree
    requires forall i | 0 <= i < |up| :: up[i].node.Node?
  {
    if up == [] then t
    else
      var turn := up[|up| - 1];
      Plug(up[..|up| - 1],
           if turn.left then Node(t, turn.node.sub, turn.node.right)
           else Node(turn.node.left, turn.node.sub, t))
  }

  /**
    The loop of the enqueue. `leftmost` is what it tells the library: whether the new node is
    the first of the walk.
  */
  method EnqueueWalk(root: Tree, s: Sub) returns (root': Tree, leftmost: bool)
    requires Sorted(Walk(root))
    ensures root' == LinkInto(root, s)
    ensures leftmost == AllEarlier(Walk(root), s)
  {
    var link := root;
    var up: seq<Turn> := [];
    leftmost := true;
    while link.Node?
      invariant Sorted(Walk(link))
      invariant forall i | 0 <= i < |up| :: up[i].node.Node?
      invariant Plug(up, LinkInto(link, s)) == LinkInto(root, s)
      invariant leftmost ==> AllEarlier(Walk(root), s) == AllEarlier(Walk(link), s)
      invariant !leftmost ==> !AllEarlier(Walk(root), s)
      decreases link
    {
      var parent := link;
      SortedParts(Walk(parent.left), parent.sub, Walk(parent.right));
      EarlierLeft(Walk(parent.left), parent.sub, Walk(parent.right), s);
      if parent.sub.phys < s.phys {
        up := up + [Turn(parent, true)];
        link := parent.left;
      } else {
        up := up + [Turn(parent, false)];
        link := parent.right;
        leftmost := false;
      }
    }
    root' := Plug(up, Node(Leaf, s, Leaf));
  }

  // ---- Erasing a node --------------------------------------------------------------------

  function Join(l: Tree, r: Tree): Tree {
    match l
    case Leaf => r
    case Node(ll, s, lr) => Node(ll, s, Join(lr, r))
  }

  function EraseFrom(t: Tree, id: nat): Tree {
    match t
    case Leaf => Leaf
    case Node(l, s, r) =>
      if s.id == id then Join(l, r) else Node(EraseFrom(l, id), s, EraseFrom(r, id))
  }

  /** `q` without subscriber `id`. */
  function Without(q: seq<Sub>, id: nat): seq<Sub> {
    if q == [] then []
    else if q[0].id == id then Without(q[1..], id)
    else [q[0]] + Without(q[1..], id)
  }

  lemma {:induction false} JoinWalk(l: Tree, r: Tree)
    ensures Walk(Join(l, r)) == Walk(l) + Walk(r)
  {
    match l
    case Leaf =>
    case Node(ll, s, lr) =>
      JoinWalk(lr, r);
      hide Join;
      calc {
        Walk(Node(ll, s, Join(lr, r)));
        Walk(ll) + [s] + (Walk(lr) + Walk(r));
        Walk(ll) + [s] + Walk(lr) + Walk(r);
        Walk(l) + Walk(r);
      }
  }

  lemma {:induction false} WithoutAppends(p: seq<Sub>, q: seq<Sub>, id: nat)
    ensures Without(p + q, id) == Without(p, id) + Without(q, id)
  {
    if p == [] {
      assert p + q == q;
    } else {
      assert (p + q)[1..] == p[1..] + q;
      WithoutAppends(p[1..], q, id);
    }
  }

  lemma {:induction false} WithoutAbsent(q: seq<Sub>, id: nat)
    requires !Has(q, id)
    ensures Without(q, id) == q
  {
    if q != [] {
      assert q[0].id != id;
      assert forall i | 0 <= i < |q| - 1 :: q[1..][i] == q[i + 1];
      WithoutAbsent(q[1..], id);
    }
  }

  lemma DistinctParts(a: seq<Sub>, p: Sub, b: seq<Sub>)
    requires Distinct(a + [p] + b)
    ensures Distinct(a) && Distinct(b) && !Has(a, p.id) && !Has(b, p.id)
  {
    var q, n := a + [p] + b, |a| + 1;
    assert q[|a|] == p;
    assert forall i | 0 <= i < |a| :: q[i] == a[i];
    assert forall i | 0 <= i < |b| :: q[n + i] == b[i];
  }

  lemma WithoutNode(a: seq<Sub>, p: Sub, b: seq<Sub>, id: nat)
    requires Distinct(a + [p] + b)
    ensures Without(a + [p] + b, id) ==
            if p.id == id then a + b else Without(a, id) + [p] + Without(b, id)
  {
    DistinctParts(a, p, b);
    hide Distinct;
    WithoutAppends(a + [p], b, id);
    WithoutAppends(a, [p], id);
    if p.id == id {
      WithoutAbsent(a, id);
      WithoutAbsent(b, id);
    }
  }

  /** Erasing a node removes exactly that subscriber from the walk. */
  lemma {:induction false} EraseRemoves(t: Tree, id: nat)
    requires Distinct(Walk(t))
    ensures Walk(EraseFrom(t, id)) == Without(Walk(t), id)
  {
    match t
    case Leaf =>
    case Node(l, s, r) =>
      hide Distinct, Has, Without;
      DistinctParts(Walk(l), s, Walk(r));
      WithoutNode(Walk(l), s, Walk(r), id);
      if s.id == id {
        JoinWalk(l, r);
      } else {
        EraseRemoves(l, id);
        EraseRemoves(r, id);
      }
  }

  lemma {:induction false} WithoutMembers(q: seq<Sub>, id: nat)
    ensures forall s :: s in Without(q, id) <==> s in q && s.id != id
  {
    if q != [] {
      WithoutMembers(q[1..], id);
      assert q == [q[0]] + q[1..];
    }
  }

  lemma {:induction false} WithoutKeeps(q: seq<Sub>, id: nat)
    requires Sorted(q) && Distinct(q)
    ensures Sorted(Without(q, id)) && Distinct(Without(q, id))
  {
    if q != [] {
      WithoutKeeps(q[1..], id);
      WithoutMembers(q[1..], id);
      var w := Without(q[1..], id);
      forall j | 0 <= j < |w|
        ensures q[0].phys >= w[j].phys && q[0].id != w[j].id
      {
        assert w[j] in q[1..];
      }
    }
  }

  lemma InsertDistinct(q: seq<Sub>, s: Sub)
    requires Sorted(q) && Distinct(q) && !Has(q, s.id)
    ensures Distinct(Insert(q, s))
  {
    InsertKeepsOrder(q, s);
  }

  /** `struct rb_root_cached`. */
  class CachedTree {
    var root: Tree
    var first: Option<Sub>

    ghost predicate Valid()
      reads this
    {
      && Sorted(Walk(root)) && Distinct(Walk(root))
      && first == if Walk(root) == [] then None else Some(Walk(root)[0])
    }

    constructor ()
      ensures Valid() && Walk(root) == []
    {
      root, first := Leaf, None;
    }

    method Enqueue(s: Sub)
      requires Valid() && !Has(Walk(root), s.id)
      modifies this
      ensures Valid() && Walk(root) == Insert(old(Walk(root)), s)
    {
      ghost var q := Walk(root);
      var root', leftmost := EnqueueWalk(root, s);
      LinkInserts(root, s);
      InsertKeepsOrder(q, s);
      InsertDistinct(q, s);
      if leftmost {
        first := Some(s);
      }
      root := root';
    }

    method Erase(id: nat)
      requires Valid() && Has(Walk(root), id)
      modifies this
      ensures Valid() && Walk(root) == Without(old(Walk(root)), id)
    {
      ghost var q := Walk(root);
      EraseRemoves(root, id);
      WithoutKeeps(q, id);
      root := EraseFrom(root, id);
      if first.value.id == id {
        var rest := Walk(root);
        first := if rest == [] then None else Some(rest[0]);
      }
    }
  }
}
