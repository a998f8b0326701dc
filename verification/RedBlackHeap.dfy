/** The red-black tree of rbtree.c: nodes with left, right and parent pointers, changed in place.

A node is named by its address, 0 being the null pointer, and `nodes` gives the fields at each
address.  `At(m, root, c, t, h)` says that the fields hold the tree `t` at `h`, in the place that
the path `c` describes, with every parent pointer the inverse of a child pointer.  Each operation
is shown to be the operation of the same name on those values. */
module RedBlackHeap {
  import opened RedBlack

  type Address = nat
  const NULL: Address := 0

  datatype Node = Node(parent: Address, left: Address, right: Address, red: bool)

  type Heap = map<Address, Node>

  predicate Has(t: Tree<Address>, x: Address) {
    t.Bin? && (x == t.n || Has(t.l, x) || Has(t.r, x))
  }

  predicate CtxHas(c: Ctx<Address>, x: Address) {
    !c.Top? && (x == c.p || Has(Sibling(c), x) || CtxHas(c.up, x))
  }

  /** No node stands at two places. */
  ghost predicate Apart(t: Tree<Address>) {
    t.Bin? ==> Apart(t.l) && Apart(t.r) && !Has(t.l, t.n) && !Has(t.r, t.n) && forall x :: !(Has(t.l, x) && Has(t.r, x))
  }

  ghost predicate CtxApart(c: Ctx<Address>) {
    !c.Top? ==>
      && Apart(Sibling(c)) && CtxApart(c.up) && !Has(Sibling(c), c.p) && !CtxHas(c.up, c.p)
      && forall x :: !(Has(Sibling(c), x) && CtxHas(c.up, x))
  }

  function Above(c: Ctx<Address>): Address {
    if c.Top? then NULL else c.p
  }

  /** `n` points to the tree `t`, whose root's parent is `p`. */
  predicate Rep(m: Heap, t: Tree<Address>, n: Address, p: Address) {
    match t
    case Nil => n == NULL
    case Bin(l, x, red, r) =>
      && n == x != NULL && x in m && m[x].parent == p && m[x].red == red
      && Rep(m, l, m[x].left, x) && Rep(m, r, m[x].right, x)
  }

  /** Above the subtree at `hole` the fields are as `c` says. */
  predicate RepCtx(m: Heap, root: Address, c: Ctx<Address>, hole: Address) {
    if c.Top? then root == hole
    else
      && c.p != NULL && c.p in m && m[c.p].red == c.red && m[c.p].parent == Above(c.up)
      && (if c.Lt? then m[c.p].left == hole && Rep(m, c.r, m[c.p].right, c.p)
          else m[c.p].right == hole && Rep(m, c.l, m[c.p].left, c.p))
      && RepCtx(m, root, c.up, c.p)
  }

  ghost predicate At(m: Heap, root: Address, c: Ctx<Address>, t: Tree<Address>, h: Address) {
    && Rep(m, t, h, Above(c)) && RepCtx(m, root, c, h)
    && Apart(t) && CtxApart(c) && forall x :: !(Has(t, x) && CtxHas(c, x))
  }

  lemma {:induction false} RepFrame(m: Heap, k: Heap, t: Tree<Address>, n: Address, p: Address)
    requires Rep(m, t, n, p) && forall x | Has(t, x) && x in m && x != NULL :: x in k && k[x] == m[x]
    ensures Rep(k, t, n, p)
    decreases t
  {
    if t.Bin? {
      RepFrame(m, k, t.l, m[t.n].left, t.n);
      RepFrame(m, k, t.r, m[t.n].right, t.n);
    }
  }

  lemma {:induction false} CtxFrame(m: Heap, k: Heap, root: Address, c: Ctx<Address>, hole: Address)
    requires RepCtx(m, root, c, hole) && forall x | CtxHas(c, x) && x in m && x != NULL :: x in k && k[x] == m[x]
    ensures RepCtx(k, root, c, hole)
    decreases c
  {
    if !c.Top? {
      RepFrame(m, k, Sibling(c), if c.Lt? then m[c.p].right else m[c.p].left, c.p);
      CtxFrame(m, k, root, c.up, c.p);
    }
  }

  /** The parent pointer of a tree's root has changed. */
  lemma RepMoved(m: Heap, k: Heap, t: Tree<Address>, n: Address, was: Address, now: Address)
    requires Rep(m, t, n, was) && Apart(t)
    requires forall x | Has(t, x) && x in m && x != n && x != NULL :: x in k && k[x] == m[x]
    requires n != NULL && n in m ==> n in k && k[n] == m[n].(parent := now)
    ensures Rep(k, t, n, now)
  {
    if t.Bin? {
      RepFrame(m, k, t.l, m[t.n].left, t.n);
      RepFrame(m, k, t.r, m[t.n].right, t.n);
    }
  }

  /** The pointer into the hole has changed from `was` to `now`. */
  lemma CtxMoved(m: Heap, k: Heap, root: Address, root': Address, c: Ctx<Address>, was: Address, now: Address)
    requires RepCtx(m, root, c, was) && CtxApart(c) && root' == if c.Top? then now else root
    requires !c.Top? ==> c.p in k && k[c.p] == if c.Lt? then m[c.p].(left := now) else m[c.p].(right := now)
    requires forall x | CtxHas(c, x) && x in m && x != Above(c) && x != NULL :: x in k && k[x] == m[x]
    ensures RepCtx(k, root', c, now)
  {
    if !c.Top? {
      RepFrame(m, k, Sibling(c), if c.Lt? then m[c.p].right else m[c.p].left, c.p);
      CtxFrame(m, k, root, c.up, c.p);
    }
  }

  lemma Ascend(m: Heap, root: Address, c: Ctx<Address>, t: Tree<Address>, h: Address)
    requires At(m, root, c, t, h) && !c.Top?
    ensures At(m, root, c.up, Out(c, t), c.p)
  {}

  class Root {
    var node: Address
    var nodes: Heap

    /** rb_root_init. */
    constructor ()
      ensures node == NULL
    {
      node := NULL;
    }

    method SetColor(h: Address, red: bool, ghost c: Ctx<Address>, ghost t: Tree<Address>)
      requires At(nodes, node, c, t, h) && t.Bin?
      modifies this`nodes
      ensures At(nodes, node, c, Paint(t, red), h)
    {
      nodes := nodes[h := nodes[h].(red := red)];
      RepFrame(old(nodes), nodes, t.l, nodes[h].left, h);
      RepFrame(old(nodes), nodes, t.r, nodes[h].right, h);
      CtxFrame(old(nodes), nodes, node, c, h);
    }

    method RotateLeft(h: Address, ghost c: Ctx<Address>, ghost t: Tree<Address>)
      requires At(nodes, node, c, t, h) && t.Bin? && t.r.Bin?
      modifies this
      ensures At(nodes, node, c, RedBlack.RotateLeft(t), t.r.n)
    {
      hide At, RedBlack.RotateLeft;
      RightChild(nodes, node, c, t, h);
      var right := nodes[h].right;
      nodes := nodes[h := nodes[h].(right := nodes[right].left)];
      if nodes[right].left != NULL {
        nodes := nodes[nodes[right].left := nodes[nodes[right].left].(parent := h)];
      }
      nodes := nodes[right := nodes[right].(parent := nodes[h].parent)];
      if nodes[h].parent == NULL {
        node := right;
      } else if h == nodes[nodes[h].parent].left {
        nodes := nodes[nodes[h].parent := nodes[nodes[h].parent].(left := right)];
      } else {
        nodes := nodes[nodes[h].parent := nodes[nodes[h].parent].(right := right)];
      }
      nodes := nodes[right := nodes[right].(left := h)];
      nodes := nodes[h := nodes[h].(parent := right)];
      RotatedLeft(old(nodes), nodes, old(node), node, c, t);
    }

    method RotateRight(h: Address, ghost c: Ctx<Address>, ghost t: Tree<Address>)
      requires At(nodes, node, c, t, h) && t.Bin? && t.l.Bin?
      modifies this
      ensures At(nodes, node, c, RedBlack.RotateRight(t), t.l.n)
    {
      hide At, RedBlack.RotateRight;
      LeftChild(nodes, node, c, t, h);
      var left := nodes[h].left;
      nodes := nodes[h := nodes[h].(left := nodes[left].right)];
      if nodes[left].right != NULL {
        nodes := nodes[nodes[left].right := nodes[nodes[left].right].(parent := h)];
      }
      nodes := nodes[left := nodes[left].(parent := nodes[h].parent)];
      if nodes[h].parent == NULL {
        node := left;
      } else if h == nodes[nodes[h].parent].right {
        nodes := nodes[nodes[h].parent := nodes[nodes[h].parent].(right := left)];
      } else {
        nodes := nodes[nodes[h].parent := nodes[nodes[h].parent].(left := left)];
      }
      nodes := nodes[left := nodes[left].(right := h)];
      nodes := nodes[h := nodes[h].(parent := left)];
      RotatedRight(old(nodes), nodes, old(node), node, c, t);
    }

    /** rb_insert_color. */
    method InsertColor(h: Address, ghost c0: Ctx<Address>, ghost t0: Tree<Address>)
      requires At(nodes, node, c0, t0, h) && t0.Bin? && RedHasParent(c0)
      modifies this
      ensures At(nodes, node, Top, InsertFix(c0, t0), node)
    {
      hide At;
      hide InsertFix;
      var n := h;
      ghost var c, t := c0, t0;
      FocusFacts(nodes, node, c, t, n);
      while nodes[n].parent != NULL && nodes[nodes[n].parent].red
        invariant At(nodes, node, c, t, n) && t.Bin? && RedHasParent(c) && InsertFix(c, t) == InsertFix(c0, t0)
        invariant n in nodes && nodes[n].parent == Above(c) && (!c.Top? ==> c.p != NULL && c.p in nodes && nodes[c.p].red == c.red)
        decreases Depth(c) + if CtxRed(c) then 1 else 0
      {
        var parent := nodes[n].parent;
        ParentFacts(nodes, node, c, t, n);
        var grandparent := nodes[parent].parent;
        var uncle := if parent == nodes[grandparent].left then nodes[grandparent].right else nodes[grandparent].left;
        InsertStep(c, t);
        if uncle != NULL && nodes[uncle].red {
          c, t := Recolor(parent, uncle, grandparent, n, c, t);
          n := grandparent;
        } else {
          n, c, t := Straighten(parent, grandparent, n, c, t);
        }
        FocusFacts(nodes, node, c, t, n);
      }
      InsertEnd(c, t);
      PlugBin(c, t);
      PlugAt(nodes, node, c, t, n);
      SetColor(node, false, Top, Plug(c, t));
    }

    /** Red uncle: parent and uncle turn black, the grandparent red. */
    method Recolor(parent: Address, uncle: Address, grandparent: Address, n: Address, ghost c: Ctx<Address>, ghost t: Tree<Address>)
      returns (ghost c': Ctx<Address>, ghost t': Tree<Address>)
      requires At(nodes, node, c, t, n) && CtxRed(c) && !c.up.Top?
      requires parent == c.p && grandparent == c.up.p && Sibling(c.up).Bin? && uncle == Sibling(c.up).n
      modifies this`nodes
      ensures c' == c.up.up && t' == Recolored(c, t) && At(nodes, node, c', t', grandparent)
    {
      hide At;
      Ascend(nodes, node, c, t, n);
      SetColor(parent, false, c.up, Out(c, t));
      ghost var p := Paint(Out(c, t), false);
      Ascend(nodes, node, c.up, p, parent);
      ghost var g := Out(c.up, p);
      ghost var k := if c.up.Lt? then Rt(p, c.up.p, c.up.red, c.up.up) else Lt(c.up.p, c.up.red, p, c.up.up);
      Descend(nodes, node, c.up.up, g, grandparent, c.up.Rt?);
      SetColor(uncle, false, k, Sibling(c.up));
      Ascend(nodes, node, k, Paint(Sibling(c.up), false), uncle);
      c' := c.up.up;
      t' := Out(k, Paint(Sibling(c.up), false));
      SetColor(grandparent, true, c', t');
      t' := Paint(t', true);
    }

    /** Black uncle: one or two rotations bring the red parent above the grandparent, painted black. */
    method Straighten(parent0: Address, grandparent: Address, n0: Address, ghost c: Ctx<Address>, ghost t: Tree<Address>)
      returns (n: Address, ghost c': Ctx<Address>, ghost t': Tree<Address>)
      requires At(nodes, node, c, t, n0) && t.Bin? && CtxRed(c) && !c.up.Top?
      requires parent0 == c.p && grandparent == c.up.p && n0 in nodes && c.p in nodes && c.up.p in nodes
      requires (n0 == nodes[parent0].right <==> c.Rt?) && (parent0 == nodes[grandparent].left <==> c.up.Lt?)
      modifies this
      ensures c' == StraightCtx(c, t) && t' == StraightTree(c, t) && At(nodes, node, c', t', n)
    {
      hide At;
      n := n0;
      var parent := parent0;
      FocusFacts(nodes, node, c, t, n0);
      ghost var pt := ParentTree(c, t);
      var leftSide := parent == nodes[grandparent].left;
      Ascend(nodes, node, c, t, n0);
      if leftSide {
        if n == nodes[parent].right {
          n := parent;
          RotateLeft(n, c.up, Out(c, t));
          ChildFacts(nodes, node, c.up, pt, true);
          parent := nodes[n].parent;
        }
      } else {
        if n != nodes[parent].right {
          n := parent;
          RotateRight(n, c.up, Out(c, t));
          ChildFacts(nodes, node, c.up, pt, false);
          parent := nodes[n].parent;
        }
      }
      SetColor(parent, false, c.up, pt);
      Ascend(nodes, node, c.up, Paint(pt, false), parent);
      ghost var g := Out(c.up, Paint(pt, false));
      SetColor(grandparent, true, c.up.up, g);
      g := Paint(g, true);
      if leftSide {
        RotateRight(grandparent, c.up.up, g);
        Descend(nodes, node, c.up.up, RedBlack.RotateRight(g), parent, true);
      } else {
        RotateLeft(grandparent, c.up.up, g);
        Descend(nodes, node, c.up.up, RedBlack.RotateLeft(g), parent, false);
      }
      c', t' := StraightCtx(c, t), StraightTree(c, t);
    }

    /** rb_erase_fixup. */
    method EraseFixup(h: Address, hp: Address, ghost c0: Ctx<Address>, ghost t0: Tree<Address>)
      requires At(nodes, node, c0, t0, h) && hp == Above(c0) && Lacking(c0, t0)
      modifies this
      ensures At(nodes, node, Top, EraseFix(c0, t0), node)
    {
      hide At;
      hide EraseFix;
      hide Lacking;
      var n, parent := h, hp;
      ghost var c, t := c0, t0;
      TopFacts(nodes, node, c, t, n);
      while n != node && (n == NULL || !nodes[n].red)
        invariant At(nodes, node, c, t, n) && parent == Above(c) && Lacking(c, t) && EraseFix(c, t) == EraseFix(c0, t0)
        invariant (n == node <==> c.Top?) && (n == NULL <==> t.Nil?) && (n != NULL ==> n in nodes && nodes[n].red == t.red)
        decreases Climb(c, t)
      {
        n, parent, c, t := FixStep(n, parent, c, t);
        TopFacts(nodes, node, c, t, n);
      }
      EraseEnd(c, t);
      if n != NULL {
        SetColor(n, false, c, t);
      }
      PlugAt(nodes, node, c, Paint(t, false), n);
    }

    /** One turn of the fixup loop. */
    method FixStep(n0: Address, parent0: Address, ghost c0: Ctx<Address>, ghost t0: Tree<Address>)
      returns (n: Address, parent: Address, ghost c: Ctx<Address>, ghost t: Tree<Address>)
      requires At(nodes, node, c0, t0, n0) && parent0 == Above(c0) && Lacking(c0, t0) && !c0.Top? && !Red(t0)
      modifies this
      ensures At(nodes, node, c, t, n) && parent == Above(c) && Lacking(c, t) && EraseFix(c, t) == EraseFix(c0, t0)
      ensures Climb(c, t) < Climb(c0, t0)
    {
      hide At;
      LackFacts(nodes, node, c0, t0, n0);
      EraseStep(c0, t0);
      hide EraseFix;
      hide Lacking;
      hide Climb;
      n, parent, c, t := n0, parent0, c0, t0;
      var onLeft := n == nodes[parent].left;
      var sibling := if onLeft then nodes[parent].right else nodes[parent].left;
      if nodes[sibling].red {
        c := LowerRed(n, parent, sibling, onLeft, c, t);
        LackFacts(nodes, node, c, t, n);
        sibling := if onLeft then nodes[parent].right else nodes[parent].left;
      }
      var l, r := nodes[sibling].left, nodes[sibling].right;
      if (l == NULL || !nodes[l].red) && (r == NULL || !nodes[r].red) {
        c, t := Push(n, parent, sibling, c, t);
        n := parent;
        FocusFacts(nodes, node, c, t, n);
        parent := nodes[n].parent;
      } else {
        Settle(n, parent, sibling, onLeft, c, t);
        c, t := Top, Plug(c.up, Settled(c, t));
        n, parent := node, NULL;
      }
    }

    /** Red sibling: it is rotated above the parent. */
    method LowerRed(n: Address, parent: Address, sibling: Address, onLeft: bool, ghost c: Ctx<Address>, ghost t: Tree<Address>)
      returns (ghost c': Ctx<Address>)
      requires At(nodes, node, c, t, n) && !c.Top? && Red(Sibling(c)) && parent == c.p && sibling == Sibling(c).n && onLeft == c.Lt?
      modifies this
      ensures c' == LowerSibling(c) && At(nodes, node, c', t, n)
    {
      FocusFacts(nodes, node, c, t, n);
      hide At;
      c' := LowerSibling(c);
      ghost var k, s := c.up, Paint(Sibling(c), false);
      PaintSibling(n, sibling, false, c, t);
      ghost var c1 := WithSibling(c, s);
      Ascend(nodes, node, c1, t, n);
      SetColor(parent, true, k, Out(c1, t));
      ghost var u := Paint(Out(c1, t), true);
      if onLeft {
        RotateLeft(parent, k, u);
      } else {
        RotateRight(parent, k, u);
      }
      ghost var w := if onLeft then RedBlack.RotateLeft(u) else RedBlack.RotateRight(u);
      Descend(nodes, node, k, w, sibling, onLeft);
      Descend(nodes, node, c'.up, if onLeft then w.l else w.r, parent, onLeft);
      SameFocus(nodes, node, c', t, n, if onLeft then nodes[parent].left else nodes[parent].right);
    }

    /** Paints the root of the sibling of the focus. */
    method PaintSibling(n: Address, sibling: Address, red: bool, ghost c: Ctx<Address>, ghost t: Tree<Address>)
      requires At(nodes, node, c, t, n) && !c.Top? && Sibling(c).Bin? && sibling == Sibling(c).n
      modifies this`nodes
      ensures At(nodes, node, WithSibling(c, Paint(Sibling(c), red)), t, n)
    {
      FocusFacts(nodes, node, c, t, n);
      hide At;
      ghost var k := Across(c, t);
      Cross(nodes, node, c, t, n);
      SetColor(sibling, red, k, Sibling(c));
      Cross(nodes, node, k, Paint(Sibling(c), red), sibling);
      SameFocus(nodes, node, WithSibling(c, Paint(Sibling(c), red)), t, n, if k.Lt? then nodes[k.p].right else nodes[k.p].left);
    }

    /** Both nephews black: the sibling turns red and the lack moves to the parent. */
    method Push(n: Address, parent: Address, sibling: Address, ghost c: Ctx<Address>, ghost t: Tree<Address>)
      returns (ghost c': Ctx<Address>, ghost t': Tree<Address>)
      requires At(nodes, node, c, t, n) && !c.Top? && Sibling(c).Bin? && parent == c.p && sibling == Sibling(c).n
      modifies this`nodes
      ensures c' == c.up && t' == PassedUp(c, t) && At(nodes, node, c', t', parent)
    {
      hide At;
      PaintSibling(n, sibling, true, c, t);
      Ascend(nodes, node, WithSibling(c, Paint(Sibling(c), true)), t, n);
      c', t' := c.up, PassedUp(c, t);
    }

    /** A red nephew: the last rotations. */
    method Settle(n: Address, parent: Address, sibling0: Address, onLeft: bool, ghost c: Ctx<Address>, ghost t: Tree<Address>)
      requires At(nodes, node, c, t, n) && !c.Top? && !PassUp(c) && parent == c.p && sibling0 == Sibling(c).n && onLeft == c.Lt?
      modifies this
      ensures At(nodes, node, Top, Plug(c.up, Settled(c, t)), node)
    {
      hide At;
      var sibling := MakeOuterRed(n, sibling0, onLeft, c, t);
      ghost var o := OuterRed(c);
      ghost var c1 := WithSibling(c, o);
      FocusFacts(nodes, node, c1, t, n);
      var color := nodes[parent].red;
      PaintSibling(n, sibling, color, c1, t);
      ghost var c2 := WithSibling(c, Paint(o, color));
      Ascend(nodes, node, c2, t, n);
      SetColor(parent, false, c.up, Out(c2, t));
      ghost var u := Paint(Out(c2, t), false);
      PaintOuter(parent, sibling, onLeft, c.up, u);
      ghost var w := OuterBlack(u, onLeft);
      if onLeft {
        RotateLeft(parent, c.up, w);
        PlugAt(nodes, node, c.up, RedBlack.RotateLeft(w), sibling);
      } else {
        RotateRight(parent, c.up, w);
        PlugAt(nodes, node, c.up, RedBlack.RotateRight(w), sibling);
      }
      assert Settled(c, t) == if onLeft then RedBlack.RotateLeft(w) else RedBlack.RotateRight(w);
    }

    /** The far nephew, below the sibling, turns black when it exists. */
    method PaintOuter(parent: Address, sibling: Address, onLeft: bool, ghost c: Ctx<Address>, ghost u: Tree<Address>)
      requires At(nodes, node, c, u, parent) && u.Bin? && (if onLeft then u.r else u.l).Bin? && sibling == (if onLeft then u.r else u.l).n
      modifies this`nodes
      ensures At(nodes, node, c, OuterBlack(u, onLeft), parent)
    {
      hide At;
      Descend(nodes, node, c, u, parent, !onLeft);
      ghost var k1 := if onLeft then Rt(u.l, u.n, u.red, c) else Lt(u.n, u.red, u.r, c);
      ghost var s := if onLeft then u.r else u.l;
      Descend(nodes, node, k1, s, sibling, !onLeft);
      ghost var k2 := if onLeft then Rt(s.l, s.n, s.red, k1) else Lt(s.n, s.red, s.r, k1);
      ghost var far := if onLeft then s.r else s.l;
      var f := if onLeft then nodes[sibling].right else nodes[sibling].left;
      FocusFacts(nodes, node, k2, far, f);
      if f != NULL {
        SetColor(f, false, k2, far);
      }
      Ascend(nodes, node, k2, Paint(far, false), f);
      Ascend(nodes, node, k1, Out(k2, Paint(far, false)), sibling);
    }

    /** When the far nephew is black, the near one is painted black and rotated above the red sibling. */
    method MakeOuterRed(n: Address, sibling0: Address, onLeft: bool, ghost c: Ctx<Address>, ghost t: Tree<Address>)
      returns (sibling: Address)
      requires At(nodes, node, c, t, n) && !c.Top? && !PassUp(c) && sibling0 == Sibling(c).n && onLeft == c.Lt?
      modifies this
      ensures At(nodes, node, WithSibling(c, OuterRed(c)), t, n) && OuterRed(c).Bin? && sibling == OuterRed(c).n
    {
      FocusFacts(nodes, node, c, t, n);
      hide At;
      sibling := sibling0;
      ghost var s, k := Sibling(c), Across(c, t);
      Cross(nodes, node, c, t, n);
      NephewFacts(nodes, node, k, s, sibling);
      var far := if onLeft then nodes[sibling].right else nodes[sibling].left;
      if far == NULL || !nodes[far].red {
        sibling := RaiseNear(sibling, onLeft, k, s);
      }
      assert At(nodes, node, k, OuterRed(c), sibling);
      Cross(nodes, node, k, OuterRed(c), sibling);
      SameFocus(nodes, node, WithSibling(c, OuterRed(c)), t, n, if k.Lt? then nodes[k.p].right else nodes[k.p].left);
    }

    method RaiseNear(sibling: Address, onLeft: bool, ghost k: Ctx<Address>, ghost s: Tree<Address>) returns (near: Address)
      requires At(nodes, node, k, s, sibling) && s.Bin? && (if onLeft then s.l else s.r).Bin?
      modifies this
      ensures At(nodes, node, k, NearAbove(s, onLeft), near) && near == (if onLeft then s.l else s.r).n
    {
      hide At;
      Descend(nodes, node, k, s, sibling, onLeft);
      near := if onLeft then nodes[sibling].left else nodes[sibling].right;
      ghost var t := if onLeft then s.l else s.r;
      ghost var kn := if onLeft then Lt(s.n, s.red, s.r, k) else Rt(s.l, s.n, s.red, k);
      SetColor(near, false, kn, t);
      Ascend(nodes, node, kn, Paint(t, false), near);
      ghost var s1 := Out(kn, Paint(t, false));
      SetColor(sibling, true, k, s1);
      if onLeft {
        RotateRight(sibling, k, Paint(s1, true));
      } else {
        RotateLeft(sibling, k, Paint(s1, true));
      }
    }

    /** rb_link_node: `link` is the root pointer, or the left or right pointer of `parent`. */
    method LinkNode(h: Address, parent: Address, onLeft: bool, ghost c: Ctx<Address>)
      requires At(nodes, node, c, Nil, NULL) && parent == Above(c) && (!c.Top? ==> onLeft == c.Lt?) && h != NULL && !CtxHas(c, h)
      modifies this
      ensures At(nodes, node, c, Bin(Nil, h, true, Nil), h)
    {
      nodes := nodes[h := Node(parent, NULL, NULL, true)];
      if parent == NULL {
        node := h;
      } else if onLeft {
        nodes := nodes[parent := nodes[parent].(left := h)];
      } else {
        nodes := nodes[parent := nodes[parent].(right := h)];
      }
      assert !c.Top? ==> CtxHas(c, c.p);
      CtxMoved(old(nodes), nodes, old(node), node, c, NULL, h);
    }

    /** rb_replace_node. */
    method ReplaceNode(was: Address, now: Address)
      requires was in nodes && (now != NULL ==> now in nodes)
      requires var p := nodes[was].parent; p != NULL ==> p in nodes && p != was && p != now
      modifies this
      ensures Replaced(old(nodes), nodes, old(node), node, was, now)
    {
      var p := nodes[was].parent;
      if p == NULL {
        node := now;
      } else if was == nodes[p].left {
        nodes := nodes[p := nodes[p].(left := now)];
      } else {
        nodes := nodes[p := nodes[p].(right := now)];
      }
      if now != NULL {
        nodes := nodes[now := nodes[now].(parent := nodes[was].parent)];
      }
    }

    /** rb_subtree_first. */
    method SubtreeFirst(h: Address, ghost c: Ctx<Address>, ghost t: Tree<Address>) returns (n: Address)
      requires At(nodes, node, c, t, h) && t.Bin?
      ensures At(nodes, node, LeftmostCtx(c, t), Leftmost(t), n)
    {
      hide At;
      n := h;
      ghost var k, u := c, t;
      Descend(nodes, node, k, u, n, true);
      while nodes[n].left != NULL
        invariant At(nodes, node, k, u, n) && u.Bin? && n in nodes
        invariant LeftmostCtx(k, u) == LeftmostCtx(c, t) && Leftmost(u) == Leftmost(t)
        decreases u
      {
        NephewFacts(nodes, node, k, u, n);
        Descend(nodes, node, k, u, n, true);
        n := nodes[n].left;
        k, u := Lt(u.n, u.red, u.r, k), u.l;
        Descend(nodes, node, k, u, n, true);
      }
      NephewFacts(nodes, node, k, u, n);
    }

    /** rb_erase of a node of a red-black tree. */
    method Erase(x: Address, ghost c: Ctx<Address>, ghost t: Tree<Address>)
      requires At(nodes, node, c, t, x) && t.Bin? && RedBlackTree(Plug(c, t))
      modifies this
      ensures At(nodes, node, Top, RedBlack.Erase(c, t), node)
      ensures x in nodes && nodes[x] == Node(NULL, NULL, NULL, true)
    {
      ghost var m := nodes;
      NephewFacts(nodes, node, c, t, x);
      UnlinkValid(c, t);
      ErasedLeaves(nodes, node, c, t, x);
      hide At;
      var child, childParent, wasRed;
      if nodes[x].left == NULL || nodes[x].right == NULL {
        child, childParent, wasRed := UnlinkOuter(x, c, t);
      } else {
        child, childParent, wasRed := UnlinkInner(x, c, t);
      }
      ghost var hole := Unlink(c, t);
      if !wasRed {
        EraseFixup(child, childParent, hole.c, hole.t);
      } else {
        PlugAt(nodes, node, hole.c, hole.t, child);
      }
      InitNode(x, RedBlack.Erase(c, t));
    }

    /** rb_node_init of a node outside the tree. */
    method InitNode(x: Address, ghost t: Tree<Address>)
      requires At(nodes, node, Top, t, node) && !Has(t, x)
      modifies this`nodes
      ensures At(nodes, node, Top, t, node) && x in nodes && nodes[x] == Node(NULL, NULL, NULL, true)
    {
      nodes := nodes[x := Node(NULL, NULL, NULL, true)];
      RepFrame(old(nodes), nodes, t, node, NULL);
    }

    /** rb_erase of a node with at most one child: the child takes its place. */
    method UnlinkOuter(x: Address, ghost c: Ctx<Address>, ghost t: Tree<Address>)
      returns (child: Address, childParent: Address, wasRed: bool)
      requires At(nodes, node, c, t, x) && t.Bin? && (t.l.Nil? || t.r.Nil?)
      modifies this
      ensures At(nodes, node, Unlink(c, t).c, Unlink(c, t).t, child) && childParent == Above(Unlink(c, t).c) && wasRed == Unlink(c, t).red
    {
      NephewFacts(nodes, node, c, t, x);
      FocusFacts(nodes, node, c, t, x);
      ParentApart(nodes, node, c, t, x);
      hide At;
      wasRed, childParent := nodes[x].red, nodes[x].parent;
      child := if nodes[x].left == NULL then nodes[x].right else nodes[x].left;
      ReplaceNode(x, child);
      ReplacedByChild(old(nodes), nodes, old(node), node, c, t, if t.l.Nil? then t.r else t.l);
    }

    /** rb_erase of a node with two children: its successor takes its place. */
    method UnlinkInner(x: Address, ghost c: Ctx<Address>, ghost t: Tree<Address>)
      returns (child: Address, childParent: Address, wasRed: bool)
      requires At(nodes, node, c, t, x) && t.Bin? && t.l.Bin? && t.r.Bin?
      modifies this
      ensures At(nodes, node, Unlink(c, t).c, Unlink(c, t).t, child) && childParent == Above(Unlink(c, t).c) && wasRed == Unlink(c, t).red
    {
      hide At;
      ghost var k, m := Rt(t.l, t.n, t.red, c), Leftmost(t.r);
      Descend(nodes, node, c, t, x, false);
      var y := SubtreeFirst(nodes[x].right, k, t.r);
      FocusFacts(nodes, node, LeftmostCtx(k, t.r), m, y);
      NephewFacts(nodes, node, LeftmostCtx(k, t.r), m, y);
      wasRed, child := nodes[y].red, nodes[y].right;
      childParent := TakeSuccessor(x, y, c, t);
      Swap(x, y, c, t);
      ghost var k' := Rt(t.l, y, t.red, c);
      Descend(nodes, node, c, Bin(t.l, y, t.red, RemoveMin(t.r)), y, false);
      DescendMin(nodes, node, k', t.r, nodes[y].right);
      LeftmostAbove(k, k', t.r);
    }

    /** The successor `y` of `x` leaves its place and gets the right subtree of `x`. */
    method TakeSuccessor(x: Address, y: Address, ghost c: Ctx<Address>, ghost t: Tree<Address>) returns (childParent: Address)
      requires At(nodes, node, c, t, x) && t.Bin? && t.l.Bin? && t.r.Bin? && y == Leftmost(t.r).n
      modifies this
      ensures Ready(nodes, node, c, t, x, y)
      ensures childParent == if t.r.l.Nil? then y else Above(LeftmostCtx(Rt(t.l, t.n, t.red, c), t.r))
    {
      hide At, Ready, RemoveMin, Apart, CtxApart;
      ghost var k, m := Rt(t.l, t.n, t.red, c), Leftmost(t.r);
      SuccessorFacts(nodes, node, c, t, x);
      var child := nodes[y].right;
      if nodes[y].parent == x {
        childParent := y;
        if child != NULL {
          nodes := nodes[child := nodes[child].(parent := y)];
        }
        assert nodes == old(nodes);
        NearSuccessor(nodes, node, c, t, x);
      } else {
        childParent := nodes[y].parent;
        ReplaceNode(y, child);
        ReplacedByChild(old(nodes), nodes, old(node), node, LeftmostCtx(k, t.r), m, m.r);
        AscendMin(nodes, node, k, t.r, child);
        FarFacts(nodes, node, c, t, x);
        ghost var mid := nodes;
        nodes := nodes[y := nodes[y].(right := nodes[x].right)];
        nodes := nodes[nodes[y].right := nodes[nodes[y].right].(parent := y)];
        FarSuccessor(mid, nodes, node, c, t, x);
      }
    }

    /** `y` takes the place, the left subtree and the colour of `x`. */
    method Swap(x: Address, y: Address, ghost c: Ctx<Address>, ghost t: Tree<Address>)
      requires t.Bin? && t.l.Bin? && t.r.Bin? && Ready(nodes, node, c, t, x, y)
      modifies this
      ensures At(nodes, node, c, Bin(t.l, y, t.red, RemoveMin(t.r)), y)
    {
      ReadyFacts(nodes, node, c, t, x, y);
      hide At;
      hide Ready;
      ReplaceNode(x, y);
      nodes := nodes[y := nodes[y].(left := nodes[x].left)];
      nodes := nodes[nodes[y].left := nodes[nodes[y].left].(parent := y)];
      nodes := nodes[y := nodes[y].(red := nodes[x].red)];
      Swapped(old(nodes), nodes, old(node), node, c, t, x, y);
    }

    /** rb_first. */
    method First(ghost t: Tree<Address>) returns (n: Address)
      requires At(nodes, node, Top, t, node)
      ensures if Inorder(t) == [] then n == NULL else n == Inorder(t)[0]
    {
      TopFacts(nodes, node, Top, t, node);
      if node == NULL {
        n := NULL;
      } else {
        n := SubtreeFirst(node, Top, t);
        FocusFacts(nodes, node, LeftmostCtx(Top, t), Leftmost(t), n);
        LeftmostFirst(t);
      }
    }

    /** rb_next: what follows the node in order, or null after the last. */
    method Next(h: Address, ghost c: Ctx<Address>, ghost t: Tree<Address>) returns (n: Address)
      requires At(nodes, node, c, t, h) && t.Bin?
      ensures var rest := Inorder(t.r) + After(c); if rest == [] then n == NULL else n == rest[0]
    {
      NephewFacts(nodes, node, c, t, h);
      hide At;
      if nodes[h].right != NULL {
        ghost var k := Rt(t.l, t.n, t.red, c);
        Descend(nodes, node, c, t, h, false);
        n := SubtreeFirst(nodes[h].right, k, t.r);
        FocusFacts(nodes, node, LeftmostCtx(k, t.r), Leftmost(t.r), n);
        LeftmostFirst(t.r);
        return;
      }
      var m := h;
      ghost var k, u := c, t;
      FocusFacts(nodes, node, k, u, m);
      SideFacts(nodes, node, k, u, m);
      n := nodes[h].parent;
      while n != NULL && m == nodes[n].right
        invariant At(nodes, node, k, u, m) && u.Bin? && n == Above(k) && NextAbove(k) == NextAbove(c)
        invariant !k.Top? ==> n != NULL && n in nodes && (m == nodes[n].right <==> k.Rt?)
        decreases k
      {
        FocusFacts(nodes, node, k, u, m);
        Ascend(nodes, node, k, u, m);
        m := n;
        n := nodes[n].parent;
        k, u := k.up, Out(k, u);
        FocusFacts(nodes, node, k, u, m);
        SideFacts(nodes, node, k, u, m);
      }
      NextAboveCorrect(c);
    }

    /** rb_first and then rb_next until null: every node once, in order. */
    method Enumerate(ghost t: Tree<Address>) returns (q: seq<Address>)
      requires At(nodes, node, Top, t, node)
      ensures q == Inorder(t)
    {
      hide At;
      var n := First(t);
      q := [];
      while n != NULL
        invariant |q| <= |Inorder(t)| && q == Inorder(t)[..|q|]
        invariant if |q| == |Inorder(t)| then n == NULL else n == Inorder(t)[|q|]
        decreases |Inorder(t)| - |q|
      {
        assert n in Inorder(t);
        HasInorder(t, n);
        ghost var c, u := Locate(nodes, node, Top, t, node, n);
        RestFrom(nodes, node, c, u, t, |q|);
        q := q + [n];
        n := Next(n, c, u);
        NotNull(nodes, node, t);
      }
      NotNull(nodes, node, t);
    }
  }

  /** What a left rotation reads and writes exists, and its nodes are different. */
  lemma RightChild(m: Heap, root: Address, c: Ctx<Address>, t: Tree<Address>, h: Address)
    requires At(m, root, c, t, h) && t.Bin? && t.r.Bin?
    ensures h == t.n && h in m && m[h].right == t.r.n && t.r.n in m && h != NULL && t.r.n != NULL && h != t.r.n
    ensures var b := m[t.r.n].left; b != NULL ==> b in m && b != h && b != t.r.n && b != m[h].parent
    ensures var p := m[h].parent; p == Above(c) && (c.Top? <==> p == NULL) && (p != NULL ==> p in m && p != h && p != t.r.n && (h == m[p].left <==> c.Lt?))
  {
    var b := t.r.l;
    assert Rep(m, t.r, m[h].right, h) && Apart(t.r) && Rep(m, b, m[t.r.n].left, t.r.n);
    assert Has(t, t.n) && Has(t, t.r.n) && (b.Bin? ==> Has(t.r, b.n) && Has(t, b.n) && Has(b, b.n));
    if !c.Top? {
      assert CtxHas(c, c.p);
      assert c.Rt? && c.l.Bin? ==> CtxHas(c, c.l.n);
    }
  }

  lemma RotatedLeft(m: Heap, k: Heap, root: Address, root': Address, c: Ctx<Address>, t: Tree<Address>)
    requires t.Bin? && t.r.Bin? && At(m, root, c, t, t.n)
    requires t.n in m && t.r.n in m && t.n in k && t.r.n in k
    requires var h, y, b, p := t.n, t.r.n, m[t.r.n].left, Above(c);
      && k[h] == m[h].(right := b, parent := y) && k[y] == m[y].(left := h, parent := p)
      && (b != NULL ==> b in m && b in k && k[b] == m[b].(parent := h))
      && (!c.Top? ==> p in m && p in k && k[p] == if c.Lt? then m[p].(left := y) else m[p].(right := y))
      && root' == (if c.Top? then y else root)
      && forall x | x in m && x != NULL && x != h && x != y && x != b && x != p :: x in k && k[x] == m[x]
    ensures At(k, root', c, RedBlack.RotateLeft(t), t.r.n)
  {
    var h, y, a, b, d := t.n, t.r.n, t.l, t.r.l, t.r.r;
    assert Rep(m, t.r, m[h].right, h) && Apart(t.r) && Rep(m, b, m[y].left, y);
    assert Has(t, h) && Has(t, y) && (!c.Top? ==> CtxHas(c, c.p)) && (b.Bin? ==> Has(t.r, b.n) && Has(t, b.n) && Has(b, b.n));
    forall x | Has(a, x) ensures x != h && x != y && (c.Top? || x != c.p) && !(b.Bin? && x == b.n) { assert Has(t, x); }
    forall x | Has(d, x) ensures x != h && x != y && (c.Top? || x != c.p) && !(b.Bin? && x == b.n) { assert Has(t.r, x) && Has(t, x); }
    forall x | Has(b, x) ensures x != h && x != y && (c.Top? || x != c.p) { assert Has(t.r, x) && Has(t, x); }
    forall x | CtxHas(c, x) ensures x != h && x != y && !(b.Bin? && x == b.n) {}
    RepFrame(m, k, a, m[h].left, h);
    RepFrame(m, k, d, m[y].right, y);
    RepMoved(m, k, b, m[y].left, y, h);
    CtxMoved(m, k, root, root', c, h, y);
    RotateLeftApart(t);
  }

  lemma RotateLeftApart(t: Tree<Address>)
    requires Apart(t) && t.Bin? && t.r.Bin?
    ensures Apart(RedBlack.RotateLeft(t))
    ensures forall x :: Has(RedBlack.RotateLeft(t), x) <==> Has(t, x)
  {
    assert Apart(t.r);
  }

  /** What a right rotation reads and writes exists, and its nodes are different. */
  lemma LeftChild(m: Heap, root: Address, c: Ctx<Address>, t: Tree<Address>, h: Address)
    requires At(m, root, c, t, h) && t.Bin? && t.l.Bin?
    ensures h == t.n && h in m && m[h].left == t.l.n && t.l.n in m && h != NULL && t.l.n != NULL && h != t.l.n
    ensures var b := m[t.l.n].right; b != NULL ==> b in m && b != h && b != t.l.n && b != m[h].parent
    ensures var p := m[h].parent; p == Above(c) && (c.Top? <==> p == NULL) && (p != NULL ==> p in m && p != h && p != t.l.n && (h == m[p].right <==> c.Rt?))
  {
    var b := t.l.r;
    assert Rep(m, t.l, m[h].left, h) && Apart(t.l) && Rep(m, b, m[t.l.n].right, t.l.n);
    assert Has(t, t.n) && Has(t, t.l.n) && (b.Bin? ==> Has(t.l, b.n) && Has(t, b.n) && Has(b, b.n));
    if !c.Top? {
      assert CtxHas(c, c.p);
      assert c.Lt? && c.r.Bin? ==> CtxHas(c, c.r.n);
    }
  }

  lemma RotatedRight(m: Heap, k: Heap, root: Address, root': Address, c: Ctx<Address>, t: Tree<Address>)
    requires t.Bin? && t.l.Bin? && At(m, root, c, t, t.n)
    requires t.n in m && t.l.n in m && t.n in k && t.l.n in k
    requires var h, y, b, p := t.n, t.l.n, m[t.l.n].right, Above(c);
      && k[h] == m[h].(left := b, parent := y) && k[y] == m[y].(right := h, parent := p)
      && (b != NULL ==> b in m && b in k && k[b] == m[b].(parent := h))
      && (!c.Top? ==> p in m && p in k && k[p] == if c.Rt? then m[p].(right := y) else m[p].(left := y))
      && root' == (if c.Top? then y else root)
      && forall x | x in m && x != NULL && x != h && x != y && x != b && x != p :: x in k && k[x] == m[x]
    ensures At(k, root', c, RedBlack.RotateRight(t), t.l.n)
  {
    var h, y, a, b, d := t.n, t.l.n, t.r, t.l.r, t.l.l;
    assert Rep(m, t.l, m[h].left, h) && Apart(t.l) && Rep(m, b, m[y].right, y);
    assert Has(t, h) && Has(t, y) && (!c.Top? ==> CtxHas(c, c.p)) && (b.Bin? ==> Has(t.l, b.n) && Has(t, b.n) && Has(b, b.n));
    forall x | Has(a, x) ensures x != h && x != y && (c.Top? || x != c.p) && !(b.Bin? && x == b.n) { assert Has(t, x); }
    forall x | Has(d, x) ensures x != h && x != y && (c.Top? || x != c.p) && !(b.Bin? && x == b.n) { assert Has(t.l, x) && Has(t, x); }
    forall x | Has(b, x) ensures x != h && x != y && (c.Top? || x != c.p) { assert Has(t.l, x) && Has(t, x); }
    forall x | CtxHas(c, x) ensures x != h && x != y && !(b.Bin? && x == b.n) {}
    RepFrame(m, k, a, m[h].right, h);
    RepFrame(m, k, d, m[y].left, y);
    RepMoved(m, k, b, m[y].right, y, h);
    CtxMoved(m, k, root, root', c, h, y);
    RotateRightApart(t);
  }

  lemma RotateRightApart(t: Tree<Address>)
    requires Apart(t) && t.Bin? && t.l.Bin?
    ensures Apart(RedBlack.RotateRight(t))
    ensures forall x :: Has(RedBlack.RotateRight(t), x) <==> Has(t, x)
  {
    assert Apart(t.l);
  }

  // ----- The steps of rb_insert_color on values -----

  function Recolored(c: Ctx<Address>, t: Tree<Address>): Tree<Address>
    requires CtxRed(c) && !c.up.Top?
  {
    var parent, u := Paint(Out(c, t), false), Paint(Sibling(c.up), false);
    if c.up.Lt? then Bin(parent, c.up.p, true, u) else Bin(u, c.up.p, true, parent)
  }

  /** The parent's tree once the new node is on the outer side. */
  function ParentTree(c: Ctx<Address>, t: Tree<Address>): Tree<Address>
    requires t.Bin? && CtxRed(c) && !c.up.Top?
  {
    if c.up.Lt? then if c.Rt? then RedBlack.RotateLeft(Out(c, t)) else Out(c, t)
    else if c.Lt? then RedBlack.RotateRight(Out(c, t)) else Out(c, t)
  }

  function StraightCtx(c: Ctx<Address>, t: Tree<Address>): Ctx<Address>
    requires t.Bin? && CtxRed(c) && !c.up.Top?
  {
    var pt := ParentTree(c, t);
    if c.up.Lt? then Lt(pt.n, false, Bin(pt.r, c.up.p, true, c.up.r), c.up.up)
    else Rt(Bin(c.up.l, c.up.p, true, pt.l), pt.n, false, c.up.up)
  }

  function StraightTree(c: Ctx<Address>, t: Tree<Address>): Tree<Address>
    requires t.Bin? && CtxRed(c) && !c.up.Top?
  {
    var pt := ParentTree(c, t);
    if c.up.Lt? then pt.l else pt.r
  }

  lemma InsertStep(c: Ctx<Address>, t: Tree<Address>)
    requires t.Bin? && RedHasParent(c) && CtxRed(c)
    ensures RedHasParent(c.up.up) && RedHasParent(StraightCtx(c, t)) && StraightTree(c, t).Bin?
    ensures Depth(c.up.up) + 2 == Depth(c) == Depth(StraightCtx(c, t)) + 1
    ensures Red(Sibling(c.up)) ==> InsertFix(c, t) == InsertFix(c.up.up, Recolored(c, t))
    ensures !Red(Sibling(c.up)) ==> InsertFix(c, t) == InsertFix(StraightCtx(c, t), StraightTree(c, t))
  {
    assert RedHasParent(c.up);
    var k := StraightCtx(c, t);
    assert Out(k, StraightTree(c, t)) == RedBlack.Straighten(c, t);
    assert Plug(k, StraightTree(c, t)) == Plug(c.up.up, RedBlack.Straighten(c, t));
  }

  lemma InsertEnd(c: Ctx<Address>, t: Tree<Address>)
    requires t.Bin? && RedHasParent(c) && !CtxRed(c)
    ensures InsertFix(c, t) == Paint(Plug(c, t), false)
  {}

  lemma FocusFacts(m: Heap, root: Address, c: Ctx<Address>, t: Tree<Address>, h: Address)
    requires At(m, root, c, t, h)
    ensures t.Bin? ==> h == t.n && h != NULL && h in m && m[h].parent == Above(c) && m[h].red == t.red
    ensures t.Nil? ==> h == NULL
    ensures !c.Top? ==> c.p != NULL && c.p in m && m[c.p].red == c.red && m[c.p].parent == Above(c.up)
  {}

  lemma ParentFacts(m: Heap, root: Address, c: Ctx<Address>, t: Tree<Address>, h: Address)
    requires At(m, root, c, t, h) && t.Bin? && !c.Top? && !c.up.Top?
    ensures c.up.p != NULL && c.p in m && c.up.p in m && m[c.p].parent == c.up.p
    ensures (h == m[c.p].right <==> c.Rt?) && (c.p == m[c.up.p].left <==> c.up.Lt?)
    ensures var s := Sibling(c.up); var u := if c.up.Lt? then m[c.up.p].right else m[c.up.p].left;
      (s.Nil? ==> u == NULL) && (s.Bin? ==> u == s.n && u != NULL && u in m && m[u].red == s.red)
  {
    assert Has(t, h) && CtxHas(c, c.p) && CtxHas(c.up, c.up.p);
    assert c.Lt? && c.r.Bin? ==> CtxHas(c, c.r.n) && Has(c.r, c.r.n);
    assert c.up.Rt? && c.up.l.Bin? ==> CtxHas(c.up, c.up.l.n) && Has(c.up.l, c.up.l.n);
    assert RepCtx(m, root, c.up, c.p);
  }

  lemma ChildFacts(m: Heap, root: Address, c: Ctx<Address>, t: Tree<Address>, toLeft: bool)
    requires t.Bin? && At(m, root, c, t, t.n)
    ensures toLeft && t.l.Bin? ==> t.l.n in m && m[t.l.n].parent == t.n
    ensures !toLeft && t.r.Bin? ==> t.r.n in m && m[t.r.n].parent == t.n
  {
    assert Rep(m, t.l, m[t.n].left, t.n) && Rep(m, t.r, m[t.n].right, t.n);
  }

  lemma Descend(m: Heap, root: Address, c: Ctx<Address>, t: Tree<Address>, h: Address, toLeft: bool)
    requires At(m, root, c, t, h) && t.Bin?
    ensures h in m && h == t.n
    ensures toLeft ==> At(m, root, Lt(t.n, t.red, t.r, c), t.l, m[h].left) && (t.l.Bin? ==> m[h].left == t.l.n)
    ensures !toLeft ==> At(m, root, Rt(t.l, t.n, t.red, c), t.r, m[h].right) && (t.r.Bin? ==> m[h].right == t.r.n)
  {}

  lemma {:induction false} PlugBin(c: Ctx<Address>, t: Tree<Address>)
    requires t.Bin?
    ensures Plug(c, t).Bin?
    decreases c
  {
    if !c.Top? { PlugBin(c.up, Out(c, t)); }
  }

  lemma {:induction false} PlugAt(m: Heap, root: Address, c: Ctx<Address>, t: Tree<Address>, h: Address)
    requires At(m, root, c, t, h)
    ensures At(m, root, Top, Plug(c, t), root)
    decreases c
  {
    if !c.Top? {
      Ascend(m, root, c, t, h);
      PlugAt(m, root, c.up, Out(c, t), c.p);
    }
  }

  // ----- The steps of rb_erase_fixup on values -----

  /** What the fixup starts from and keeps: the paths through `t` lack one black node. */
  predicate Lacking(c: Ctx<Address>, t: Tree<Address>) {
    Balanced(t) && NoRedRed(Paint(t, false)) && CtxOk(c, BlackHeight(t) + 1)
  }

  function WithSibling(c: Ctx<Address>, s: Tree<Address>): Ctx<Address>
    requires !c.Top?
  {
    if c.Lt? then c.(r := s) else c.(l := s)
  }

  /** The path to the sibling of the focus `t`. */
  function Across(c: Ctx<Address>, t: Tree<Address>): Ctx<Address>
    requires !c.Top?
  {
    if c.Lt? then Rt(t, c.p, c.red, c.up) else Lt(c.p, c.red, t, c.up)
  }

  function OuterBlack(u: Tree<Address>, onLeft: bool): Tree<Address>
    requires u.Bin? && (if onLeft then u.r else u.l).Bin?
  {
    if onLeft then u.(r := u.r.(r := Paint(u.r.r, false))) else u.(l := u.l.(l := Paint(u.l.l, false)))
  }

  /** The sibling's tree after its near child has been painted black and rotated above it. */
  function NearAbove(s: Tree<Address>, onLeft: bool): Tree<Address>
    requires s.Bin? && (if onLeft then s.l else s.r).Bin?
  {
    if onLeft then RedBlack.RotateRight(s.(l := Paint(s.l, false), red := true))
    else RedBlack.RotateLeft(s.(r := Paint(s.r, false), red := true))
  }

  lemma Cross(m: Heap, root: Address, c: Ctx<Address>, t: Tree<Address>, h: Address)
    requires At(m, root, c, t, h) && !c.Top?
    ensures c.p in m && At(m, root, Across(c, t), Sibling(c), if c.Lt? then m[c.p].right else m[c.p].left)
    ensures Sibling(c).Bin? ==> Sibling(c).n == if c.Lt? then m[c.p].right else m[c.p].left
  {
    Ascend(m, root, c, t, h);
    Descend(m, root, c.up, Out(c, t), c.p, c.Rt?);
  }

  /** The focus is the address the path leads to. */
  lemma SameFocus(m: Heap, root: Address, c: Ctx<Address>, t: Tree<Address>, h: Address, g: Address)
    requires At(m, root, c, t, g) && (t.Bin? ==> h == t.n) && (t.Nil? ==> h == NULL)
    ensures h == g
  {}

  lemma TopFacts(m: Heap, root: Address, c: Ctx<Address>, t: Tree<Address>, h: Address)
    requires At(m, root, c, t, h)
    ensures h == root <==> c.Top?
    ensures (h == NULL <==> t.Nil?) && (h != NULL ==> h in m && m[h].red == t.red && h == t.n)
  {
    if !c.Top? {
      RootAbove(m, root, c, h);
      if t.Bin? { assert Has(t, h); }
    }
  }

  lemma {:induction false} RootAbove(m: Heap, root: Address, c: Ctx<Address>, hole: Address)
    requires RepCtx(m, root, c, hole) && !c.Top?
    ensures root != NULL && CtxHas(c, root)
    decreases c
  {
    if !c.up.Top? { RootAbove(m, root, c.up, c.p); }
  }

  lemma NephewFacts(m: Heap, root: Address, c: Ctx<Address>, s: Tree<Address>, h: Address)
    requires At(m, root, c, s, h) && s.Bin?
    ensures h == s.n && h in m && m[h].red == s.red
    ensures (s.l.Nil? ==> m[h].left == NULL) && (s.l.Bin? ==> m[h].left == s.l.n && s.l.n != NULL && s.l.n in m && m[s.l.n].red == s.l.red)
    ensures (s.r.Nil? ==> m[h].right == NULL) && (s.r.Bin? ==> m[h].right == s.r.n && s.r.n != NULL && s.r.n in m && m[s.r.n].red == s.r.red)
  {
    assert Rep(m, s.l, m[h].left, h) && Rep(m, s.r, m[h].right, h);
  }

  /** At a lack below the root the sibling exists, and the side of the focus can be read off the parent. */
  lemma LackFacts(m: Heap, root: Address, c: Ctx<Address>, t: Tree<Address>, h: Address)
    requires At(m, root, c, t, h) && Lacking(c, t) && !c.Top?
    ensures c.p in m && (h == m[c.p].left <==> c.Lt?) && Sibling(c).Bin?
    ensures var s, a := Sibling(c), if c.Lt? then m[c.p].right else m[c.p].left;
      && a == s.n && a != NULL && a in m && m[a].red == s.red
      && (s.l.Nil? ==> m[a].left == NULL) && (s.l.Bin? ==> m[a].left == s.l.n && s.l.n != NULL && s.l.n in m && m[s.l.n].red == s.l.red)
      && (s.r.Nil? ==> m[a].right == NULL) && (s.r.Bin? ==> m[a].right == s.r.n && s.r.n != NULL && s.r.n in m && m[s.r.n].red == s.r.red)
  {
    var s, a := Sibling(c), if c.Lt? then m[c.p].right else m[c.p].left;
    Cross(m, root, c, t, h);
    NephewFacts(m, root, Across(c, t), s, a);
    FocusFacts(m, root, c, t, h);
    FocusFacts(m, root, Across(c, t), s, a);
    if t.Bin? { assert Has(t, t.n) && CtxHas(c, s.n); }
  }

  lemma EraseStep(c: Ctx<Address>, t: Tree<Address>)
    requires Lacking(c, t) && !c.Top? && !Red(t)
    ensures Sibling(c).Bin?
    ensures var k := if Red(Sibling(c)) then LowerSibling(c) else c;
      && Lacking(k, t) && !Red(Sibling(k)) && k.p == c.p && k.Lt? == c.Lt?
      && (PassUp(k) ==> EraseFix(c, t) == EraseFix(k.up, PassedUp(k, t)) && Lacking(k.up, PassedUp(k, t))
                        && Climb(k.up, PassedUp(k, t)) < Climb(c, t))
      && (!PassUp(k) ==> var w := Plug(k.up, Settled(k, t));
            EraseFix(c, t) == EraseFix(Top, w) && Lacking(Top, w) && Climb(Top, w) < Climb(c, t))
  {
    hide EraseFix, Lacking, Climb, PassUp, Settled, PassedUp, Plug;
    EraseUnfold(c, t);
    LoweredLacks(c, t);
    var k := if Red(Sibling(c)) then LowerSibling(c) else c;
    if PassUp(k) { PassLacks(c, k, t); } else { SettleLacks(c, k, t); }
  }

  lemma EraseUnfold(c: Ctx<Address>, t: Tree<Address>)
    requires !c.Top? && !Red(t)
    ensures var k := if Red(Sibling(c)) then LowerSibling(c) else c;
      EraseFix(c, t) == if PassUp(k) then EraseFix(k.up, PassedUp(k, t)) else Paint(Plug(k.up, Settled(k, t)), false)
  {}

  lemma LoweredLacks(c: Ctx<Address>, t: Tree<Address>)
    requires Lacking(c, t) && !c.Top? && !Red(t)
    ensures Sibling(c).Bin?
    ensures var k := if Red(Sibling(c)) then LowerSibling(c) else c;
      && !k.Top? && Lacking(k, t) && !Red(Sibling(k)) && k.p == c.p && k.Lt? == c.Lt? && (k == c || k.red)
  {}

  lemma PassLacks(c: Ctx<Address>, k: Ctx<Address>, t: Tree<Address>)
    requires !c.Top? && !k.Top? && Lacking(k, t) && !Red(t) && !Red(Sibling(k)) && PassUp(k) && (k == c || k.red)
    ensures Lacking(k.up, PassedUp(k, t)) && Climb(k.up, PassedUp(k, t)) < Climb(c, t)
  {}

  lemma SettleLacks(c: Ctx<Address>, k: Ctx<Address>, t: Tree<Address>)
    requires !c.Top? && !k.Top? && Lacking(k, t) && !Red(t) && !Red(Sibling(k)) && !PassUp(k)
    ensures var w := Plug(k.up, Settled(k, t)); EraseFix(Top, w) == Paint(w, false) && Lacking(Top, w) && Climb(Top, w) < Climb(c, t)
  {
    SettledValid(k, t);
    PlugAlmost(k.up, Settled(k, t));
  }

  lemma EraseEnd(c: Ctx<Address>, t: Tree<Address>)
    requires c.Top? || Red(t)
    ensures EraseFix(c, t) == Plug(c, Paint(t, false))
  {}

  // ----- The steps of rb_erase on the fields -----

  /** What rb_replace_node leaves: the pointer to `was` now leads to `now`, whose parent is that of `was`. */
  ghost predicate Replaced(m: Heap, k: Heap, root: Address, root': Address, was: Address, now: Address)
    requires was in m
  {
    var p := m[was].parent;
    && (p == NULL ==> root' == now) && (p != NULL ==> root' == root)
    && (p != NULL ==> p in m && p in k && k[p] == if was == m[p].left then m[p].(left := now) else m[p].(right := now))
    && (now != NULL ==> now in m && now in k && k[now] == m[now].(parent := p))
    && forall x | x in m && x != NULL && x != p && x != now :: x in k && k[x] == m[x]
  }

  function RemoveMin(t: Tree<Address>): Tree<Address>
    requires t.Bin?
  {
    if t.l.Nil? then t.r else t.(l := RemoveMin(t.l))
  }

  function Addr(t: Tree<Address>): Address {
    if t.Nil? then NULL else t.n
  }

  /** The focus can be told apart from its sibling by the parent's pointers. */
  lemma SideFacts(m: Heap, root: Address, c: Ctx<Address>, t: Tree<Address>, h: Address)
    requires At(m, root, c, t, h) && t.Bin?
    ensures !c.Top? ==> c.p in m && (h == m[c.p].left <==> c.Lt?) && (h == m[c.p].right <==> c.Rt?)
  {
    if !c.Top? {
      assert Has(t, h);
      assert Sibling(c).Bin? ==> Has(Sibling(c), Sibling(c).n) && CtxHas(c, Sibling(c).n);
    }
  }

  lemma ParentApart(m: Heap, root: Address, c: Ctx<Address>, t: Tree<Address>, h: Address)
    requires At(m, root, c, t, h) && t.Bin?
    ensures !c.Top? ==> c.p != h && !Has(t, c.p) && (t.l.Bin? ==> c.p != t.l.n) && (t.r.Bin? ==> c.p != t.r.n)
  {
    if !c.Top? {
      assert CtxHas(c, c.p);
      assert Has(t, h) && (t.l.Bin? ==> Has(t.l, t.l.n) && Has(t, t.l.n)) && (t.r.Bin? ==> Has(t.r, t.r.n) && Has(t, t.r.n));
    }
  }

  /** A node with at most one child `u` has been replaced by it. */
  lemma ReplacedByChild(m: Heap, k: Heap, root: Address, root': Address, c: Ctx<Address>, t: Tree<Address>, u: Tree<Address>)
    requires t.Bin? && At(m, root, c, t, t.n) && t.n in m && (u == t.l || u == t.r)
    requires Replaced(m, k, root, root', t.n, Addr(u))
    ensures At(k, root', c, u, Addr(u))
    ensures t.n in k && k[t.n] == m[t.n]
  {
    SideFacts(m, root, c, t, t.n);
    ParentApart(m, root, c, t, t.n);
    NephewFacts(m, root, c, t, t.n);
    var h, p := t.n, Above(c);
    assert Rep(m, u, Addr(u), h) && Apart(u) && !Has(u, h);
    forall x | Has(u, x) ensures Has(t, x) && x != h && (c.Top? || x != c.p) {}
    assert u.Bin? ==> Has(u, u.n);
    assert !c.Top? ==> CtxHas(c, c.p);
    RepMoved(m, k, u, Addr(u), h, p);
    CtxMoved(m, k, root, root', c, h, Addr(u));
  }

  lemma {:induction false} AscendMin(m: Heap, root: Address, c: Ctx<Address>, t: Tree<Address>, h: Address)
    requires t.Bin? && At(m, root, LeftmostCtx(c, t), Leftmost(t).r, h)
    ensures At(m, root, c, RemoveMin(t), Addr(RemoveMin(t)))
    decreases t
  {
    hide At;
    FocusFacts(m, root, LeftmostCtx(c, t), Leftmost(t).r, h);
    if t.l.Bin? {
      var k := Lt(t.n, t.red, t.r, c);
      AscendMin(m, root, k, t.l, h);
      Ascend(m, root, k, RemoveMin(t.l), Addr(RemoveMin(t.l)));
    }
  }

  lemma {:induction false} DescendMin(m: Heap, root: Address, c: Ctx<Address>, t: Tree<Address>, h: Address)
    requires t.Bin? && At(m, root, c, RemoveMin(t), h)
    ensures At(m, root, LeftmostCtx(c, t), Leftmost(t).r, Addr(Leftmost(t).r))
    decreases t
  {
    hide At;
    FocusFacts(m, root, c, RemoveMin(t), h);
    if t.l.Bin? {
      Descend(m, root, c, RemoveMin(t), h, true);
      DescendMin(m, root, Lt(t.n, t.red, t.r, c), t.l, m[h].left);
    }
  }

  lemma {:induction false} LeftmostAbove(c: Ctx<Address>, k: Ctx<Address>, t: Tree<Address>)
    requires t.Bin?
    ensures t.l.Bin? ==> Above(LeftmostCtx(c, t)) == Above(LeftmostCtx(k, t)) && Has(t, Above(LeftmostCtx(c, t)))
    ensures t.l.Nil? ==> LeftmostCtx(k, t) == k
    decreases t
  {
    if t.l.Bin? {
      LeftmostAbove(Lt(t.n, t.red, t.r, c), Lt(t.n, t.red, t.r, k), t.l);
    }
  }

  lemma {:induction false} MinLeaves(t: Tree<Address>)
    requires t.Bin? && Apart(t)
    ensures Has(t, Leftmost(t).n) && !Has(RemoveMin(t), Leftmost(t).n) && Apart(RemoveMin(t))
    ensures forall x :: Has(RemoveMin(t), x) ==> Has(t, x)
    decreases t
  {
    if t.l.Bin? { MinLeaves(t.l); }
  }

  /** The state before `y` takes the place of `x`: the subtrees it will get hang at `x` and `y`. */
  ghost predicate Ready(m: Heap, root: Address, c: Ctx<Address>, t: Tree<Address>, x: Address, y: Address)
    requires t.Bin? && t.r.Bin?
  {
    var l, r := t.l, RemoveMin(t.r);
    && x != NULL && x in m && m[x].red == t.red && m[x].parent == Above(c) && RepCtx(m, root, c, x)
    && y != NULL && y in m && y != x
    && Rep(m, l, m[x].left, x) && Rep(m, r, m[y].right, y)
    && Apart(l) && Apart(r) && CtxApart(c)
    && !Has(l, x) && !Has(l, y) && !Has(r, x) && !Has(r, y) && !CtxHas(c, x) && !CtxHas(c, y)
    && forall z :: !(Has(l, z) && Has(r, z)) && !(Has(l, z) && CtxHas(c, z)) && !(Has(r, z) && CtxHas(c, z))
  }

  lemma SuccessorFacts(m: Heap, root: Address, c: Ctx<Address>, t: Tree<Address>, x: Address)
    requires At(m, root, c, t, x) && t.Bin? && t.l.Bin? && t.r.Bin?
    ensures var k, y := Rt(t.l, t.n, t.red, c), Leftmost(t.r).n;
      && At(m, root, LeftmostCtx(k, t.r), Leftmost(t.r), y) && y in m && y != NULL && y != x && x == t.n && x in m
      && m[y].parent == Above(LeftmostCtx(k, t.r)) && (m[y].parent == x <==> t.r.l.Nil?)
      && m[y].parent != NULL && m[y].parent in m && m[y].parent != y && m[y].parent != m[y].right
      && m[y].right == Addr(Leftmost(t.r).r) && (m[y].right != NULL ==> m[y].right in m && m[m[y].right].parent == y)
      && Apart(t) && CtxApart(c) && forall z :: !(Has(t, z) && CtxHas(c, z))
  {
    var k := Rt(t.l, t.n, t.red, c);
    Descend(m, root, c, t, x, false);
    LeftmostAt(m, root, k, t.r, m[x].right);
    var kk, u := LeftmostCtx(k, t.r), Leftmost(t.r);
    FocusFacts(m, root, kk, u, u.n);
    NephewFacts(m, root, kk, u, u.n);
    ParentApart(m, root, kk, u, u.n);
    ChildFacts(m, root, kk, u, false);
    LeftmostAbove(k, k, t.r);
    LeftmostNotTop(k, t.r);
    MinLeaves(t.r);
  }

  lemma {:induction false} LeftmostNotTop(c: Ctx<Address>, t: Tree<Address>)
    requires t.Bin? && !c.Top?
    ensures !LeftmostCtx(c, t).Top?
    decreases t
  {
    if t.l.Bin? { LeftmostNotTop(Lt(t.n, t.red, t.r, c), t.l); }
  }

  lemma {:induction false} LeftmostAt(m: Heap, root: Address, c: Ctx<Address>, t: Tree<Address>, h: Address)
    requires At(m, root, c, t, h) && t.Bin?
    ensures At(m, root, LeftmostCtx(c, t), Leftmost(t), Leftmost(t).n)
    decreases t
  {
    hide At;
    Descend(m, root, c, t, h, true);
    if t.l.Bin? {
      LeftmostAt(m, root, Lt(t.n, t.red, t.r, c), t.l, m[h].left);
    }
  }

  lemma NearSuccessor(m: Heap, root: Address, c: Ctx<Address>, t: Tree<Address>, x: Address)
    requires At(m, root, c, t, x) && t.Bin? && t.l.Bin? && t.r.Bin? && t.r.l.Nil?
    ensures Ready(m, root, c, t, x, t.r.n)
  {
    assert Rep(m, t.r, m[x].right, x) && Apart(t.r);
    assert Has(t.r, t.r.n) && Has(t, t.r.n) && Has(t, x);
    forall z | Has(t.r.r, z) ensures Has(t.r, z) {}
    forall z | Has(t.l, z) || Has(t.r, z) ensures Has(t, z) {}
  }

  /** After the far successor has left the right subtree of `x`. */
  lemma FarFacts(m: Heap, root: Address, c: Ctx<Address>, t: Tree<Address>, x: Address)
    requires t.Bin? && t.l.Bin? && t.r.Bin? && t.r.l.Bin? && x == t.n && Apart(t)
    requires At(m, root, Rt(t.l, t.n, t.red, c), RemoveMin(t.r), Addr(RemoveMin(t.r)))
    ensures x in m && x != NULL && m[x].right == t.r.n && t.r.n in m && t.r.n != NULL && t.r.n != x
    ensures t.r.n != Leftmost(t.r).n
  {
    MinLeaves(t.r);
    assert Has(RemoveMin(t.r), t.r.n) && CtxHas(Rt(t.l, t.n, t.red, c), x);
  }

  lemma FarSuccessor(m: Heap, k: Heap, root: Address, c: Ctx<Address>, t: Tree<Address>, x: Address)
    requires t.Bin? && t.l.Bin? && t.r.Bin? && t.r.l.Bin? && x == t.n && Apart(t) && forall z :: !(Has(t, z) && CtxHas(c, z))
    requires At(m, root, Rt(t.l, t.n, t.red, c), RemoveMin(t.r), Addr(RemoveMin(t.r)))
    requires var y, a := Leftmost(t.r).n, t.r.n;
      && y != NULL && y in m && y in k && k[y] == m[y].(right := a) && a in m && a in k && k[a] == m[a].(parent := y)
      && forall z | z in m && z != NULL && z != y && z != a :: z in k && k[z] == m[z]
    ensures Ready(k, root, c, t, x, Leftmost(t.r).n)
  {
    var y, a, l, r := Leftmost(t.r).n, t.r.n, t.l, RemoveMin(t.r);
    MinLeaves(t.r);
    assert Has(t.r, y) && Has(t, y) && Has(r, a) && Has(t.r, a) && Has(t, a) && Has(t, x);
    forall z | Has(l, z) ensures Has(t, z) && z != y && z != a {}
    forall z | Has(r, z) ensures Has(t, z) && z != y {}
    forall z | CtxHas(c, z) ensures z != y && z != a && z != x {}
    RepFrame(m, k, l, m[x].left, x);
    RepMoved(m, k, r, a, x, y);
    CtxFrame(m, k, root, c, x);
  }

  lemma ReadyFacts(m: Heap, root: Address, c: Ctx<Address>, t: Tree<Address>, x: Address, y: Address)
    requires t.Bin? && t.l.Bin? && t.r.Bin? && Ready(m, root, c, t, x, y)
    ensures x in m && y in m && y != NULL && x != y && m[x].parent == Above(c)
    ensures !c.Top? ==> c.p != NULL && c.p in m && c.p != x && c.p != y && (x == m[c.p].left <==> c.Lt?)
    ensures m[x].left == t.l.n && t.l.n in m && t.l.n != NULL && t.l.n != x && t.l.n != y && t.l.n != Above(c)
  {
    assert Has(t.l, t.l.n);
    if !c.Top? {
      assert CtxHas(c, c.p);
      assert Sibling(c).Bin? ==> Has(Sibling(c), Sibling(c).n) && CtxHas(c, Sibling(c).n);
    }
  }

  lemma Swapped(m: Heap, k: Heap, root: Address, root': Address, c: Ctx<Address>, t: Tree<Address>, x: Address, y: Address)
    requires t.Bin? && t.l.Bin? && t.r.Bin? && Ready(m, root, c, t, x, y) && x in m && y in m && y in k
    requires k[y] == m[y].(parent := m[x].parent, left := m[x].left, red := m[x].red)
    requires t.l.n in m && t.l.n in k && k[t.l.n] == m[t.l.n].(parent := y)
    requires root' == if c.Top? then y else root
    requires !c.Top? ==> c.p in m && c.p in k && k[c.p] == if c.Lt? then m[c.p].(left := y) else m[c.p].(right := y)
    requires forall z | z in m && z != NULL && z != y && z != t.l.n && z != Above(c) :: z in k && k[z] == m[z]
    ensures At(k, root', c, Bin(t.l, y, t.red, RemoveMin(t.r)), y)
  {
    var l, r := t.l, RemoveMin(t.r);
    assert Has(l, l.n) && (!c.Top? ==> CtxHas(c, c.p));
    forall z | Has(l, z) ensures z != y && (c.Top? || z != c.p) {}
    forall z | Has(r, z) ensures z != y && z != l.n && (c.Top? || z != c.p) {}
    forall z | CtxHas(c, z) ensures z != y && z != l.n {}
    RepMoved(m, k, l, l.n, x, y);
    RepFrame(m, k, r, m[y].right, y);
    CtxMoved(m, k, root, root', c, x, y);
  }

  lemma {:induction false} HasInorder(t: Tree<Address>, x: Address)
    ensures Has(t, x) <==> x in Inorder(t)
    decreases t
  {
    if t.Bin? {
      HasInorder(t.l, x);
      HasInorder(t.r, x);
    }
  }

  lemma {:induction false} CtxInorder(c: Ctx<Address>, x: Address)
    ensures CtxHas(c, x) <==> x in Before(c) || x in After(c)
    decreases c
  {
    if !c.Top? {
      CtxInorder(c.up, x);
      HasInorder(Sibling(c), x);
    }
  }

  lemma {:induction false} Distinct(t: Tree<Address>, i: nat, j: nat)
    requires Apart(t) && i < j < |Inorder(t)|
    ensures Inorder(t)[i] != Inorder(t)[j]
    decreases t
  {
    var a, b := Inorder(t.l), Inorder(t.r);
    var x, y := Inorder(t)[i], Inorder(t)[j];
    assert Inorder(t) == a + [t.n] + b;
    if j < |a| {
      Distinct(t.l, i, j);
    } else if i > |a| {
      Distinct(t.r, i - |a| - 1, j - |a| - 1);
    } else {
      assert i < |a| ==> x in a;
      assert j > |a| ==> y in b;
      HasInorder(t.l, x);
      HasInorder(t.r, y);
    }
  }

  /** The path to a node of the tree. */
  lemma {:induction false} Locate(m: Heap, root: Address, c: Ctx<Address>, t: Tree<Address>, h: Address, x: Address)
    returns (k: Ctx<Address>, u: Tree<Address>)
    requires At(m, root, c, t, h) && Has(t, x)
    ensures At(m, root, k, u, x) && u.Bin? && u.n == x && Plug(k, u) == Plug(c, t)
    decreases t
  {
    FocusFacts(m, root, c, t, h);
    if x == t.n {
      k, u := c, t;
    } else if Has(t.l, x) {
      Descend(m, root, c, t, h, true);
      k, u := Locate(m, root, Lt(t.n, t.red, t.r, c), t.l, m[h].left, x);
    } else {
      Descend(m, root, c, t, h, false);
      k, u := Locate(m, root, Rt(t.l, t.n, t.red, c), t.r, m[h].right, x);
    }
  }

  lemma NotNull(m: Heap, root: Address, t: Tree<Address>)
    requires At(m, root, Top, t, root)
    ensures forall i | 0 <= i < |Inorder(t)| :: Inorder(t)[i] != NULL
  {
    forall i | 0 <= i < |Inorder(t)| ensures Inorder(t)[i] != NULL {
      HasInorder(t, Inorder(t)[i]);
      var c, u := Locate(m, root, Top, t, root, Inorder(t)[i]);
    }
  }

  /** What stands after the `i`th node, seen from the path to it. */
  lemma RestFrom(m: Heap, root: Address, c: Ctx<Address>, t: Tree<Address>, whole: Tree<Address>, i: nat)
    requires t.Bin? && At(m, root, c, t, t.n) && Plug(c, t) == whole && i < |Inorder(whole)| && Inorder(whole)[i] == t.n
    ensures Inorder(t.r) + After(c) == Inorder(whole)[i + 1..]
  {
    var a, b := Before(c) + Inorder(t.l), Inorder(t.r) + After(c);
    PlugInorderAt(c, t);
    PlugAt(m, root, c, t, t.n);
    assert Inorder(whole) == a + [t.n] + b;
    if |a| < i { Distinct(whole, |a|, i); }
    if i < |a| { Distinct(whole, i, |a|); }
  }

  lemma ErasedLeaves(m: Heap, root: Address, c: Ctx<Address>, t: Tree<Address>, x: Address)
    requires At(m, root, c, t, x) && t.Bin? && RedBlackTree(Plug(c, t))
    ensures !Has(RedBlack.Erase(c, t), x)
  {
    EraseCorrect(c, t);
    HasInorder(RedBlack.Erase(c, t), x);
    HasInorder(t.l, x);
    HasInorder(t.r, x);
    CtxInorder(c, x);
    assert Has(t, x);
  }
}
