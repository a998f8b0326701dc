/** Red-black trees as values, with a zipper for the place where the rebalancing loops work.

`InsertFix` and `EraseFix` follow the loops of rb_insert_color and rb_erase_fixup step by step.
The theorems say that they restore the red-black rules and change the in-order sequence by
exactly the node linked or erased.  The heap version is in RedBlackHeap. */
module RedBlack {

  datatype Tree<T> = Nil | Bin(l: Tree<T>, n: T, red: bool, r: Tree<T>)

  /** The path from a subtree up to the root; the subtree hangs to the left (Lt) or right (Rt) of `p`. */
  datatype Ctx<T> = Top | Lt(p: T, red: bool, r: Tree<T>, up: Ctx<T>) | Rt(l: Tree<T>, p: T, red: bool, up: Ctx<T>)

  predicate Red<T>(t: Tree<T>) { t.Bin? && t.red }

  function Paint<T>(t: Tree<T>, red: bool): Tree<T> {
    if t.Bin? then t.(red := red) else t
  }

  /** The parent's tree, with `t` in the hole. */
  function Out<T>(c: Ctx<T>, t: Tree<T>): Tree<T>
    requires !c.Top?
  {
    match c
    case Lt(p, red, r, _) => Bin(t, p, red, r)
    case Rt(l, p, red, _) => Bin(l, p, red, t)
  }

  function Plug<T>(c: Ctx<T>, t: Tree<T>): Tree<T> {
    if c.Top? then t else Plug(c.up, Out(c, t))
  }

  function Depth<T>(c: Ctx<T>): nat {
    if c.Top? then 0 else 1 + Depth(c.up)
  }

  function Inorder<T>(t: Tree<T>): seq<T> {
    match t
    case Nil => []
    case Bin(l, n, _, r) => Inorder(l) + [n] + Inorder(r)
  }

  /** What stands before and after the hole, in order. */
  function Before<T>(c: Ctx<T>): seq<T> {
    match c
    case Top => []
    case Lt(p, _, r, up) => Before(up)
    case Rt(l, p, _, up) => Before(up) + (Inorder(l) + [p])
  }

  function After<T>(c: Ctx<T>): seq<T> {
    match c
    case Top => []
    case Lt(p, _, r, up) => ([p] + Inorder(r)) + After(up)
    case Rt(l, p, _, up) => After(up)
  }

  lemma {:induction false} PlugInorder<T>(c: Ctx<T>, t: Tree<T>)
    ensures Inorder(Plug(c, t)) == Before(c) + Inorder(t) + After(c)
    decreases c
  {
    if !c.Top? {
      PlugInorder(c.up, Out(c, t));
    }
  }

  // ----- The red-black rules -----

  function BlackHeight<T>(t: Tree<T>): nat {
    match t
    case Nil => 0
    case Bin(l, _, red, _) => BlackHeight(l) + if red then 0 else 1
  }

  predicate Balanced<T>(t: Tree<T>) {
    t.Bin? ==> Balanced(t.l) && Balanced(t.r) && BlackHeight(t.l) == BlackHeight(t.r)
  }

  predicate NoRedRed<T>(t: Tree<T>) {
    t.Bin? ==> NoRedRed(t.l) && NoRedRed(t.r) && (t.red ==> !Red(t.l) && !Red(t.r))
  }

  /** Root black, no red node with a red child, equal black height on every path. */
  predicate RedBlackTree<T>(t: Tree<T>) {
    !Red(t) && NoRedRed(t) && Balanced(t)
  }

  predicate CtxRed<T>(c: Ctx<T>) { !c.Top? && c.red }

  function Sibling<T>(c: Ctx<T>): Tree<T>
    requires !c.Top?
  {
    if c.Lt? then c.r else c.l
  }

  /** The rules hold everywhere on the path, for a subtree of black height `h` with a black root. */
  predicate CtxOk<T>(c: Ctx<T>, h: nat) {
    !c.Top? ==>
      && Balanced(Sibling(c)) && NoRedRed(Sibling(c)) && BlackHeight(Sibling(c)) == h
      && (c.red ==> !Red(Sibling(c)) && !CtxRed(c.up) && !c.up.Top?)
      && CtxOk(c.up, h + if c.red then 0 else 1)
  }

  /** A valid path with a valid subtree is a valid tree, and back. */
  lemma {:induction false} PlugValid<T>(c: Ctx<T>, t: Tree<T>)
    ensures CtxOk(c, BlackHeight(t)) && Balanced(t) && NoRedRed(t) && !(Red(t) && CtxRed(c)) && (c.Top? ==> !Red(t))
       <==> RedBlackTree(Plug(c, t))
    decreases c
  {
    if !c.Top? {
      PlugValid(c.up, Out(c, t));
    }
  }

  lemma {:induction false} PlugAlmost<T>(c: Ctx<T>, t: Tree<T>)
    requires CtxOk(c, BlackHeight(t)) && Balanced(t) && NoRedRed(t) && !(Red(t) && CtxRed(c))
    ensures RedBlackTree(Paint(Plug(c, t), false))
  {
    if !c.Top? { PlugValid(c, t); }
  }

  // ----- Insertion -----

  function RotateLeft<T>(t: Tree<T>): Tree<T>
    requires t.Bin? && t.r.Bin?
  {
    Bin(Bin(t.l, t.n, t.red, t.r.l), t.r.n, t.r.red, t.r.r)
  }

  function RotateRight<T>(t: Tree<T>): Tree<T>
    requires t.Bin? && t.l.Bin?
  {
    Bin(t.l.l, t.l.n, t.l.red, Bin(t.l.r, t.n, t.red, t.r))
  }

  /** rb_insert_color from the red subtree `t` at `c`.  The source reads the grandparent of a node with
      a red parent without a check, hence the precondition. */
  function InsertFix<T>(c: Ctx<T>, t: Tree<T>): Tree<T>
    requires t.Bin? && RedHasParent(c)
    decreases c
  {
    if !CtxRed(c) then Paint(Plug(c, t), false)
    else
      var up := c.up;
      if Red(Sibling(up)) then
        var parent := Paint(Out(c, t), false);
        var g := if up.Lt? then Bin(parent, up.p, true, Paint(up.r, false)) else Bin(Paint(up.l, false), up.p, true, parent);
        assert RedHasParent(up);
        InsertFix(up.up, g)
      else
        Paint(Plug(up.up, Straighten(c, t)), false)
  }

  /** The rotations at parent and grandparent. */
  function Straighten<T>(c: Ctx<T>, t: Tree<T>): Tree<T>
    requires t.Bin? && CtxRed(c) && !c.up.Top?
  {
    var up := c.up;
    if up.Lt? then
      var parent := if c.Rt? then RotateLeft(Out(c, t)) else Out(c, t);
      RotateRight(Bin(Paint(parent, false), up.p, true, up.r))
    else
      var parent := if c.Lt? then RotateRight(Out(c, t)) else Out(c, t);
      RotateLeft(Bin(up.l, up.p, true, Paint(parent, false)))
  }

  predicate RedHasParent<T>(c: Ctx<T>) {
    !c.Top? ==> (c.red ==> !c.up.Top?) && RedHasParent(c.up)
  }

  lemma {:induction false} OkHasParents<T>(c: Ctx<T>, h: nat)
    requires CtxOk(c, h)
    ensures RedHasParent(c)
    decreases c
  {
    if !c.Top? { OkHasParents(c.up, h + if c.red then 0 else 1); }
  }

  lemma {:induction false} InsertFixInorder<T>(c: Ctx<T>, t: Tree<T>)
    requires t.Bin? && RedHasParent(c)
    ensures Inorder(InsertFix(c, t)) == Inorder(Plug(c, t))
    decreases c
  {
    if CtxRed(c) {
      var up := c.up;
      var whole := Out(up, Out(c, t));
      assert Plug(c, t) == Plug(up.up, whole);
      if Red(Sibling(up)) {
        var parent := Paint(Out(c, t), false);
        var g := if up.Lt? then Bin(parent, up.p, true, Paint(up.r, false)) else Bin(Paint(up.l, false), up.p, true, parent);
        InsertFixInorder(up.up, g);
        assert Inorder(g) == Inorder(whole);
        PlugInorder(up.up, g);
      } else {
        StraightenInorder(c, t);
        PlugInorder(up.up, Straighten(c, t));
      }
      PlugInorder(up.up, whole);
    }
  }

  lemma StraightenInorder<T>(c: Ctx<T>, t: Tree<T>)
    requires t.Bin? && CtxRed(c) && !c.up.Top?
    ensures Inorder(Straighten(c, t)) == Inorder(Out(c.up, Out(c, t)))
  {
    var up, parent := c.up, Out(c, t);
    if up.Lt? {
      if c.Rt? { RotateLeftInorder(parent); parent := RotateLeft(parent); }
      RotateRightInorder(Bin(Paint(parent, false), up.p, true, up.r));
    } else {
      if c.Lt? { RotateRightInorder(parent); parent := RotateRight(parent); }
      RotateLeftInorder(Bin(up.l, up.p, true, Paint(parent, false)));
    }
  }

  lemma RotateLeftInorder<T>(t: Tree<T>)
    requires t.Bin? && t.r.Bin?
    ensures RotateLeft(t).Bin? && Inorder(RotateLeft(t)) == Inorder(t)
  {}

  lemma RotateRightInorder<T>(t: Tree<T>)
    requires t.Bin? && t.l.Bin?
    ensures RotateRight(t).Bin? && Inorder(RotateRight(t)) == Inorder(t)
  {}

  /** After a red leaf is linked into a red-black tree, rb_insert_color restores every rule. */
  lemma {:induction false} InsertFixValid<T>(c: Ctx<T>, t: Tree<T>)
    requires Red(t) && Balanced(t) && NoRedRed(t) && CtxOk(c, BlackHeight(t))
    ensures RedHasParent(c) && RedBlackTree(InsertFix(c, t))
    decreases c
  {
    OkHasParents(c, BlackHeight(t));
    if !CtxRed(c) {
      PlugAlmost(c, t);
    } else {
      var up := c.up;
      if Red(Sibling(up)) {
        var parent := Paint(Out(c, t), false);
        var g := if up.Lt? then Bin(parent, up.p, true, Paint(up.r, false)) else Bin(Paint(up.l, false), up.p, true, parent);
        InsertFixValid(up.up, g);
      } else {
        var s := Straighten(c, t);
        assert Balanced(s) && NoRedRed(s) && !Red(s);
        PlugAlmost(up.up, s);
      }
    }
  }

  /** Linking the new red leaf `n` at the hole `c` of the red-black tree `Plug(c, Nil)`. */
  lemma InsertCorrect<T>(c: Ctx<T>, n: T)
    requires RedBlackTree(Plug(c, Nil))
    ensures RedHasParent(c)
    ensures RedBlackTree(InsertFix(c, Bin(Nil, n, true, Nil)))
    ensures Inorder(InsertFix(c, Bin(Nil, n, true, Nil))) == Before(c) + [n] + After(c)
  {
    var leaf := Bin(Nil, n, true, Nil);
    PlugValid(c, Nil);
    InsertFixValid(c, leaf);
    InsertFixInorder(c, leaf);
    PlugInorder(c, leaf);
  }

  // ----- Removal -----

  /** What is left to climb: nothing once the subtree is red or the root. */
  function Climb<T>(c: Ctx<T>, t: Tree<T>): nat {
    if c.Top? || Red(t) then 0 else 1 + Depth(c)
  }

  /** The path after a red sibling has been rotated above the parent. */
  function LowerSibling<T>(c: Ctx<T>): Ctx<T>
    requires !c.Top? && Red(Sibling(c))
  {
    match c
    case Lt(p, _, s, up) => Lt(p, true, s.l, Lt(s.n, false, s.r, up))
    case Rt(s, p, _, up) => Rt(s.r, p, true, Rt(s.l, s.n, false, up))
  }

  /** Both nephews black: the sibling turns red and the lack moves to the parent. */
  predicate PassUp<T>(c: Ctx<T>)
    requires !c.Top?
  {
    Sibling(c).Nil? || (!Red(Sibling(c).l) && !Red(Sibling(c).r))
  }

  function PassedUp<T>(c: Ctx<T>, t: Tree<T>): Tree<T>
    requires !c.Top?
  {
    match c
    case Lt(p, red, s, _) => Bin(t, p, red, Paint(s, true))
    case Rt(s, p, red, _) => Bin(Paint(s, true), p, red, t)
  }

  /** The sibling after its red near child has been rotated above it. */
  function OuterRed<T>(c: Ctx<T>): Tree<T>
    requires !c.Top? && !PassUp(c)
  {
    var s := Sibling(c);
    if c.Lt? then
      if Red(s.r) then s else RotateRight(s.(l := Paint(s.l, false), red := true))
    else
      if Red(s.l) then s else RotateLeft(s.(r := Paint(s.r, false), red := true))
  }

  /** The last rotation: the sibling takes the parent's place and colour. */
  function Settled<T>(c: Ctx<T>, t: Tree<T>): Tree<T>
    requires !c.Top? && !PassUp(c)
  {
    var s := OuterRed(c);
    match c
    case Lt(p, red, _, _) => RotateLeft(Bin(t, p, false, s.(red := red, r := Paint(s.r, false))))
    case Rt(_, p, red, _) => RotateRight(Bin(s.(red := red, l := Paint(s.l, false)), p, false, t))
  }

  /** rb_erase_fixup from the subtree `t` at `c`, whose paths lack one black node. */
  function EraseFix<T>(c: Ctx<T>, t: Tree<T>): Tree<T>
    decreases Climb(c, t)
  {
    if c.Top? || Red(t) then Plug(c, Paint(t, false))
    else
      var k := if Red(Sibling(c)) then LowerSibling(c) else c;
      if PassUp(k) then EraseFix(k.up, PassedUp(k, t))
      else Paint(Plug(k.up, Settled(k, t)), false)
  }

  lemma LowerSiblingInorder<T>(c: Ctx<T>, t: Tree<T>)
    requires !c.Top? && Red(Sibling(c))
    ensures Before(LowerSibling(c)) == Before(c) && After(LowerSibling(c)) == After(c)
  {}

  lemma SettledInorder<T>(c: Ctx<T>, t: Tree<T>)
    requires !c.Top? && !PassUp(c)
    ensures Inorder(Settled(c, t)) == Inorder(Out(c, t))
  {
    var s := Sibling(c);
    assert Inorder(OuterRed(c)) == Inorder(s);
    var o := OuterRed(c);
    if c.Lt? {
      assert Inorder(o.(red := c.red, r := Paint(o.r, false))) == Inorder(o);
    } else {
      assert Inorder(o.(red := c.red, l := Paint(o.l, false))) == Inorder(o);
    }
  }

  lemma {:induction false} EraseFixInorder<T>(c: Ctx<T>, t: Tree<T>)
    ensures Inorder(EraseFix(c, t)) == Before(c) + Inorder(t) + After(c)
    decreases Climb(c, t)
  {
    PlugInorder(c, Paint(t, false));
    if !c.Top? && !Red(t) {
      if Red(Sibling(c)) { LowerSiblingInorder(c, t); }
      var k := if Red(Sibling(c)) then LowerSibling(c) else c;
      PlugInorder(k, t);
      PlugInorder(k.up, Out(k, t));
      if PassUp(k) {
        EraseFixInorder(k.up, PassedUp(k, t));
        assert Inorder(PassedUp(k, t)) == Inorder(Out(k, t));
      } else {
        SettledInorder(k, t);
        PlugInorder(k.up, Settled(k, t));
      }
    }
  }

  /** A subtree that lacks one black node at an otherwise valid path: every rule is restored.  A red
      subtree may have red children, since the fixup ends by painting it black. */
  lemma {:induction false} EraseFixValid<T>(c: Ctx<T>, t: Tree<T>)
    requires Balanced(t) && NoRedRed(Paint(t, false)) && CtxOk(c, BlackHeight(t) + 1)
    ensures RedBlackTree(EraseFix(c, t))
    decreases Climb(c, t)
  {
    if c.Top? {
    } else if Red(t) {
      PlugValid(c, Paint(t, false));
    } else {
      var k := if Red(Sibling(c)) then LowerSibling(c) else c;
      SiblingBlack(c, BlackHeight(t) + 1);
      if PassUp(k) {
        PassedUpValid(k, t);
        EraseFixValid(k.up, PassedUp(k, t));
      } else {
        SettledValid(k, t);
        PlugAlmost(k.up, Settled(k, t));
      }
    }
  }

  /** A red sibling has been rotated away: the path is still valid and the new sibling is black. */
  lemma SiblingBlack<T>(c: Ctx<T>, h: nat)
    requires !c.Top? && CtxOk(c, h) && h > 0
    ensures var k := if Red(Sibling(c)) then LowerSibling(c) else c; CtxOk(k, h) && !Red(Sibling(k)) && Sibling(k).Bin?
  {}

  lemma PassedUpValid<T>(c: Ctx<T>, t: Tree<T>)
    requires !c.Top? && PassUp(c) && Balanced(t) && NoRedRed(t) && !Red(t) && CtxOk(c, BlackHeight(t) + 1) && !Red(Sibling(c))
    ensures var u := PassedUp(c, t); Balanced(u) && NoRedRed(Paint(u, false)) && CtxOk(c.up, BlackHeight(u) + 1)
  {}

  lemma SettledValid<T>(c: Ctx<T>, t: Tree<T>)
    requires !c.Top? && !PassUp(c) && Balanced(t) && NoRedRed(t) && !Red(t) && CtxOk(c, BlackHeight(t) + 1) && !Red(Sibling(c))
    ensures var r := Settled(c, t);
      Balanced(r) && NoRedRed(r) && Red(r) == c.red && BlackHeight(r) == BlackHeight(Out(c, Sibling(c)))
  {
    OuterRedValid(c);
  }

  lemma OuterRedValid<T>(c: Ctx<T>)
    requires !c.Top? && !PassUp(c) && !Red(Sibling(c)) && Balanced(Sibling(c)) && NoRedRed(Sibling(c))
    ensures var o := OuterRed(c);
      && o.Bin? && Balanced(o) && NoRedRed(o) && !o.red && BlackHeight(o) == BlackHeight(Sibling(c))
      && if c.Lt? then Red(o.r) else Red(o.l)
  {
    var s, o := Sibling(c), OuterRed(c);
    assert Balanced(s.l) && Balanced(s.r) && NoRedRed(s.l) && NoRedRed(s.r);
    if c.Lt? && !Red(s.r) {
      assert Red(s.l);
      assert o == Bin(s.l.l, s.l.n, false, Bin(s.l.r, s.n, true, s.r));
      assert Balanced(o.r) && NoRedRed(o.r);
    } else if c.Rt? && !Red(s.l) {
      assert Red(s.r);
      assert o == Bin(Bin(s.l, s.n, true, s.r.l), s.r.n, false, s.r.r);
      assert Balanced(o.l) && NoRedRed(o.l);
    }
  }

  /** The leftmost node of a subtree: its path and the tree it roots. */
  function LeftmostCtx<T>(c: Ctx<T>, t: Tree<T>): Ctx<T>
    requires t.Bin?
    decreases t
  {
    if t.l.Nil? then c else LeftmostCtx(Lt(t.n, t.red, t.r, c), t.l)
  }

  function Leftmost<T>(t: Tree<T>): (m: Tree<T>)
    requires t.Bin?
    ensures m.Bin? && m.l.Nil?
  {
    if t.l.Nil? then t else Leftmost(t.l)
  }

  datatype Hole<T> = Hole(c: Ctx<T>, t: Tree<T>, red: bool)

  /** rb_erase up to the fixup: the place where a node of colour `red` has disappeared, and what
      hangs there now. */
  function Unlink<T>(c: Ctx<T>, t: Tree<T>): Hole<T>
    requires t.Bin?
  {
    if t.l.Nil? then Hole(c, t.r, t.red)
    else if t.r.Nil? then Hole(c, t.l, t.red)
    else
      var m := Leftmost(t.r);
      Hole(LeftmostCtx(Rt(t.l, m.n, t.red, c), t.r), m.r, m.red)
  }

  function Erase<T>(c: Ctx<T>, t: Tree<T>): Tree<T>
    requires t.Bin?
  {
    var h := Unlink(c, t);
    if h.red then Plug(h.c, h.t) else EraseFix(h.c, h.t)
  }

  lemma {:induction false} LeftmostInorder<T>(c: Ctx<T>, t: Tree<T>)
    requires t.Bin?
    ensures Before(LeftmostCtx(c, t)) == Before(c)
    ensures ([Leftmost(t).n] + Inorder(Leftmost(t).r)) + After(LeftmostCtx(c, t)) == Inorder(t) + After(c)
    decreases t
  {
    if t.l.Bin? {
      LeftmostInorder(Lt(t.n, t.red, t.r, c), t.l);
      Associate(Inorder(t.l), [t.n], Inorder(t.r), After(c));
    }
  }

  lemma Associate<T>(a: seq<T>, b: seq<T>, c: seq<T>, d: seq<T>)
    ensures (a + b + c) + d == a + ((b + c) + d)
  {}

  lemma {:induction false} LeftmostValid<T>(c: Ctx<T>, t: Tree<T>)
    requires t.Bin? && Balanced(t) && NoRedRed(t) && CtxOk(c, BlackHeight(t)) && !(Red(t) && CtxRed(c)) && !c.Top?
    ensures var k, m := LeftmostCtx(c, t), Leftmost(t);
      CtxOk(k, BlackHeight(m)) && Balanced(m) && NoRedRed(m) && !(Red(m) && CtxRed(k)) && !k.Top?
    decreases t
  {
    if t.l.Bin? {
      LeftmostValid(Lt(t.n, t.red, t.r, c), t.l);
    }
  }

  lemma UnlinkValid<T>(c: Ctx<T>, t: Tree<T>)
    requires t.Bin? && RedBlackTree(Plug(c, t))
    ensures var h := Unlink(c, t);
      Balanced(h.t) && NoRedRed(h.t) && CtxOk(h.c, BlackHeight(h.t) + if h.red then 0 else 1) && (h.red ==> !Red(h.t) && !h.c.Top?)
  {
    PlugValid(c, t);
    if t.l.Bin? && t.r.Bin? {
      var m := Leftmost(t.r);
      LeftmostValid(Rt(t.l, m.n, t.red, c), t.r);
      assert Balanced(m.l) && BlackHeight(m.l) == 0;
    }
  }

  lemma Regroup<T>(a: seq<T>, b: seq<T>, n: seq<T>, d: seq<T>, e: seq<T>, f: seq<T>, g: seq<T>)
    requires (n + d) + e == f + g
    ensures (a + (b + n)) + d + e == (a + b) + (f + g)
  {
    assert (a + (b + n)) + d + e == (a + b) + ((n + d) + e);
  }

  lemma UnlinkInorder<T>(c: Ctx<T>, t: Tree<T>)
    requires t.Bin?
    ensures var h := Unlink(c, t);
      Before(h.c) + Inorder(h.t) + After(h.c) == (Before(c) + Inorder(t.l)) + (Inorder(t.r) + After(c))
  {
    var h := Unlink(c, t);
    if t.l.Bin? && t.r.Bin? {
      var m := Leftmost(t.r);
      LeftmostInorder(Rt(t.l, m.n, t.red, c), t.r);
      Regroup(Before(c), Inorder(t.l), [m.n], Inorder(m.r), After(h.c), Inorder(t.r), After(c));
    }
  }

  lemma PlugInorderAt<T>(c: Ctx<T>, t: Tree<T>)
    requires t.Bin?
    ensures Inorder(Plug(c, t)) == (Before(c) + Inorder(t.l)) + [t.n] + (Inorder(t.r) + After(c))
  {
    PlugInorder(c, t);
  }

  /** rb_erase of any node: the rules hold again and exactly that node has left the order. */
  lemma EraseCorrect<T>(c: Ctx<T>, t: Tree<T>)
    requires t.Bin? && RedBlackTree(Plug(c, t))
    ensures RedBlackTree(Erase(c, t))
    ensures Inorder(Plug(c, t)) == (Before(c) + Inorder(t.l)) + [t.n] + (Inorder(t.r) + After(c))
    ensures Inorder(Erase(c, t)) == (Before(c) + Inorder(t.l)) + (Inorder(t.r) + After(c))
  {
    var h := Unlink(c, t);
    PlugInorderAt(c, t);
    UnlinkValid(c, t);
    UnlinkInorder(c, t);
    hide Inorder;
    hide Unlink;
    if h.red {
      PlugValid(h.c, h.t);
      PlugInorder(h.c, h.t);
    } else {
      EraseFixValid(h.c, h.t);
      EraseFixInorder(h.c, h.t);
    }
  }

  // ----- Enumeration -----

  /** rb_next: the leftmost node to the right, or else the first ancestor reached from its left. */
  function NextAbove<T>(c: Ctx<T>): Ctx<T> {
    if c.Rt? then NextAbove(c.up) else c
  }

  lemma {:induction false} NextAboveCorrect<T>(c: Ctx<T>)
    ensures var k := NextAbove(c);
      After(k) == After(c) && (k.Top? <==> After(c) == []) && (!k.Top? ==> k.Lt? && After(c)[0] == k.p)
    decreases c
  {
    if c.Rt? { NextAboveCorrect(c.up); }
  }

  lemma {:induction false} LeftmostFirst<T>(t: Tree<T>)
    requires t.Bin?
    ensures Inorder(t) != [] && Inorder(t)[0] == Leftmost(t).n
    decreases t
  {
    if t.l.Bin? { LeftmostFirst(t.l); }
  }
}
