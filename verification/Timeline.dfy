/** The timeline of the runqueue: the red-black tree of rbtree.c ordered by entity_before.

`Insert` and `Remove` say on the sorted sequence of queued threads what enqueue_entity_locked and
dequeue_entity_locked do on the tree. */
module Timeline {
  import opened RedBlack
  import opened RedBlackHeap

  datatype Entity = Entity(vruntime: nat, tid: int)

  /** entity_before: virtual runtime, then thread id, then address. */
  predicate Precedes(e: map<Address, Entity>, a: Address, b: Address)
    requires a in e && b in e
  {
    if e[a].vruntime != e[b].vruntime then e[a].vruntime < e[b].vruntime
    else if e[a].tid != e[b].tid then e[a].tid < e[b].tid
    else a < b
  }

  ghost predicate Known(e: map<Address, Entity>, q: seq<Address>) {
    forall i | 0 <= i < |q| :: q[i] in e
  }

  ghost predicate Sorted(e: map<Address, Entity>, q: seq<Address>) {
    Known(e, q) && forall i, j | 0 <= i < j < |q| :: Precedes(e, q[i], q[j])
  }

  function Insert(e: map<Address, Entity>, q: seq<Address>, x: Address): seq<Address>
    requires Known(e, q) && x in e
  {
    if q == [] || Precedes(e, x, q[0]) then [x] + q else [q[0]] + Insert(e, q[1..], x)
  }

  function Remove(q: seq<Address>, x: Address): seq<Address> {
    if q == [] then [] else if q[0] == x then q[1..] else [q[0]] + Remove(q[1..], x)
  }

  /** The insertion point is where the order puts it. */
  lemma {:induction false} InsertAt(e: map<Address, Entity>, a: seq<Address>, b: seq<Address>, x: Address)
    requires Known(e, a + b) && x in e && (forall y | y in a :: y in e && !Precedes(e, x, y)) && (forall y | y in b :: y in e && Precedes(e, x, y))
    ensures Insert(e, a + b, x) == a + [x] + b
    decreases a
  {
    var q := a + b;
    if a == [] {
      assert q == b;
      assert b != [] ==> b[0] in b;
    } else {
      assert q[1..] == a[1..] + b && q[0] == a[0] && a[0] in a;
      assert forall y | y in a[1..] :: y in a;
      InsertAt(e, a[1..], b, x);
      assert [a[0]] + (a[1..] + [x] + b) == a + [x] + b;
    }
  }

  lemma {:induction false} RemoveAt(a: seq<Address>, b: seq<Address>, x: Address)
    requires x !in a
    ensures Remove(a + [x] + b, x) == a + b
    decreases a
  {
    var q := a + [x] + b;
    if a == [] {
      assert q == [x] + b;
    } else {
      assert q[1..] == a[1..] + [x] + b && q[0] == a[0] && a[0] in a;
      RemoveAt(a[1..], b, x);
      assert [a[0]] + (a[1..] + b) == a + b;
    }
  }

  lemma {:induction false} InsertSorted(e: map<Address, Entity>, q: seq<Address>, x: Address)
    requires Sorted(e, q) && x in e && x !in q
    ensures Sorted(e, Insert(e, q, x))
    ensures |Insert(e, q, x)| == |q| + 1 && forall y :: y in Insert(e, q, x) <==> y == x || y in q
    decreases q
  {
    if q == [] {
    } else if Precedes(e, x, q[0]) {
      assert [x] + q == Insert(e, q, x);
    } else {
      assert q == [q[0]] + q[1..];
      InsertSorted(e, q[1..], x);
      var r := Insert(e, q[1..], x);
      forall y | y in r ensures y in e && Precedes(e, q[0], y) {
        if y != x { assert y in q[1..]; }
      }
      assert Insert(e, q, x) == [q[0]] + r;
    }
  }

  lemma RemoveSorted(e: map<Address, Entity>, q: seq<Address>, x: Address)
    requires Sorted(e, q) && x in q
    ensures Sorted(e, Remove(q, x))
    ensures |Remove(q, x)| == |q| - 1 && forall y :: y in Remove(q, x) <==> y != x && y in q
  {
    var i :| 0 <= i < |q| && q[i] == x;
    var a, b := q[..i], q[i + 1..];
    assert q == a + [x] + b;
    NotTwice(e, a, b, x);
    RemoveAt(a, b, x);
    SortedAround(e, a, b, x);
  }

  lemma NotTwice(e: map<Address, Entity>, a: seq<Address>, b: seq<Address>, x: Address)
    requires Sorted(e, a + [x] + b)
    ensures x !in a && x !in b
  {
    var q := a + [x] + b;
    forall i | 0 <= i < |a| ensures a[i] != x { assert Precedes(e, q[i], q[|a|]); }
    forall i | 0 <= i < |b| ensures b[i] != x { assert Precedes(e, q[|a|], q[|a| + 1 + i]); }
  }

  lemma SortedAround(e: map<Address, Entity>, a: seq<Address>, b: seq<Address>, x: Address)
    requires Sorted(e, a + [x] + b)
    ensures Sorted(e, a + b)
  {
    var q := a + [x] + b;
    forall j | 0 <= j < |a + b| ensures (a + b)[j] == q[if j < |a| then j else j + 1] {}
  }

  /** Every queued thread before the hole precedes `x`, every one after it comes later. */
  ghost predicate Between(e: map<Address, Entity>, c: Ctx<Address>, x: Address)
    requires x in e
  {
    && (forall y | y in Before(c) :: y in e && !Precedes(e, x, y))
    && (forall y | y in After(c) :: y in e && Precedes(e, x, y))
  }

  lemma BetweenTop(e: map<Address, Entity>, x: Address)
    requires x in e
    ensures Between(e, Top, x)
  {}

  lemma WalkDown(e: map<Address, Entity>, c: Ctx<Address>, t: Tree<Address>, x: Address)
    requires t.Bin? && x in e && Sorted(e, Inorder(Plug(c, t))) && Between(e, c, x)
    ensures t.n in e
    ensures Precedes(e, x, t.n) ==> Between(e, Lt(t.n, t.red, t.r, c), x)
    ensures !Precedes(e, x, t.n) ==> Between(e, Rt(t.l, t.n, t.red, c), x)
  {
    hide Inorder, Plug, Sorted;
    PlugInorderAt(c, t);
    SortedSides(e, Before(c), Inorder(t.l), t.n, Inorder(t.r), After(c));
  }

  lemma SortedSides(e: map<Address, Entity>, b: seq<Address>, l: seq<Address>, x: Address, r: seq<Address>, a: seq<Address>)
    requires Sorted(e, (b + l) + [x] + (r + a))
    ensures x in e && (forall y | y in l :: y in e && Precedes(e, y, x)) && (forall y | y in r :: y in e && Precedes(e, x, y))
  {
    var q, n := (b + l) + [x] + (r + a), |b + l|;
    assert q[n] == x;
    forall y | y in l ensures y in e && Precedes(e, y, x) {
      var i :| 0 <= i < |l| && l[i] == y;
      assert q[|b| + i] == y;
    }
    forall y | y in r ensures y in e && Precedes(e, x, y) {
      var i :| 0 <= i < |r| && r[i] == y;
      assert q[n + 1 + i] == y;
    }
  }

  class Queue {
    const root: Root
    ghost var tree: Tree<Address>

    constructor ()
      ensures Valid() && Contents() == [] && fresh(root)
    {
      root := new Root();
      tree := Nil;
    }

    ghost predicate Valid()
      reads this, root
    {
      At(root.nodes, root.node, Top, tree, root.node) && RedBlackTree(tree)
    }

    ghost function Contents(): seq<Address>
      reads this
    {
      Inorder(tree)
    }

    /** The search of enqueue_entity_locked: the place where `x` keeps the order. */
    method Search(x: Address, e: map<Address, Entity>) returns (parent: Address, onLeft: bool, ghost c: Ctx<Address>)
      requires Valid() && Sorted(e, Contents()) && x in e
      ensures At(root.nodes, root.node, c, Nil, NULL) && Plug(c, Nil) == tree && Between(e, c, x)
      ensures parent == Above(c) && (!c.Top? ==> onLeft == c.Lt?)
    {
      hide At;
      hide RedBlackTree;
      hide Between;
      var link := root.node;
      parent, onLeft := NULL, true;
      ghost var t: Tree<Address> := tree;
      c := Top;
      TopFacts(root.nodes, root.node, c, t, link);
      BetweenTop(e, x);
      while link != NULL
        invariant At(root.nodes, root.node, c, t, link) && Plug(c, t) == tree && Between(e, c, x)
        invariant parent == Above(c) && (!c.Top? ==> onLeft == c.Lt?)
        invariant link == NULL <==> t.Nil?
        invariant t.Bin? ==> link == t.n && link in root.nodes
        decreases t
      {
        WalkDown(e, c, t, x);
        parent := link;
        onLeft := Precedes(e, x, parent);
        Descend(root.nodes, root.node, c, t, link, onLeft);
        if onLeft {
          link := root.nodes[parent].left;
          c, t := Lt(t.n, t.red, t.r, c), t.l;
        } else {
          link := root.nodes[parent].right;
          c, t := Rt(t.l, t.n, t.red, c), t.r;
        }
        TopFacts(root.nodes, root.node, c, t, link);
      }
    }

    /** enqueue_entity_locked on the tree: the search, rb_link_node and rb_insert_color. */
    method Enqueue(x: Address, e: map<Address, Entity>)
      requires Valid() && Sorted(e, Contents()) && x in e && x != NULL && x !in Contents()
      modifies this, root
      ensures Valid() && Contents() == Insert(e, old(Contents()), x)
    {
      hide At;
      hide RedBlackTree;
      var parent, onLeft, c := Search(x, e);
      PlugInorder(c, Nil);
      assert Contents() == Before(c) + After(c);
      CtxInorder(c, x);
      InsertAt(e, Before(c), After(c), x);
      InsertCorrect(c, x);
      root.LinkNode(x, parent, onLeft, c);
      root.InsertColor(x, c, Bin(Nil, x, true, Nil));
      tree := InsertFix(c, Bin(Nil, x, true, Nil));
    }

    /** rb_erase of a queued thread. */
    method Dequeue(x: Address)
      requires Valid() && x in Contents()
      modifies this, root
      ensures Valid() && Contents() == Remove(old(Contents()), x)
    {
      hide At;
      HasInorder(tree, x);
      ghost var c, t := Locate(root.nodes, root.node, Top, tree, root.node, x);
      EraseCorrect(c, t);
      NotBefore(root.nodes, root.node, c, t, x);
      RemoveAt(Before(c) + Inorder(t.l), Inorder(t.r) + After(c), x);
      root.Erase(x, c, t);
      tree := RedBlack.Erase(c, t);
    }

    /** rb_first. */
    method First() returns (x: Address)
      requires Valid()
      ensures if Contents() == [] then x == NULL else x == Contents()[0]
    {
      x := root.First(tree);
    }
  }

  lemma NotBefore(m: Heap, root: Address, c: Ctx<Address>, t: Tree<Address>, x: Address)
    requires At(m, root, c, t, x) && t.Bin?
    ensures x !in Before(c) + Inorder(t.l)
  {
    CtxInorder(c, x);
    HasInorder(t.l, x);
    assert Has(t, x);
  }
}
