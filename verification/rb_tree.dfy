/** wepoll's intrusive red-black tree with parent pointers. */
module RbTree {
  import opened RbShape

  /** `t` after a rotation towards side `cis`. */
  ghost function Rotated(cis: Side, t: Shape): Shape
    requires t.Node? && t.Kid(cis.Flip()).Node?
  {
    var q := t.Kid(cis.Flip());
    Build(cis, q.n, q.key, q.red, Build(cis, t.n, t.key, t.red, t.Kid(cis), q.Kid(cis)), q.Kid(cis.Flip()))
  }

  lemma RotatedOrder(cis: Side, t: Shape)
    requires t.Node? && t.Kid(cis.Flip()).Node?
    ensures Inorder(Rotated(cis, t)) == Inorder(t)
  {
  }

  lemma RotatedTidy(cis: Side, t: Shape)
    requires t.Node? && t.Kid(cis.Flip()).Node?
    ensures Nodes(Rotated(cis, t)) == Nodes(t)
    ensures Tidy(t) ==> Tidy(Rotated(cis, t))
  {
    var q := t.Kid(cis.Flip());
    if Tidy(t) {
      var low := Build(cis, t.n, t.key, t.red, t.Kid(cis), q.Kid(cis));
      assert Tidy(q) && Nodes(q) == {q.n} + Nodes(q.left) + Nodes(q.right);
      assert Nodes(t) == {t.n} + Nodes(t.Kid(cis)) + Nodes(q);
      assert Tidy(low) && Nodes(low) == {t.n} + Nodes(t.Kid(cis)) + Nodes(q.Kid(cis));
    }
  }

  lemma RotatedKeeps(cis: Side, t: Shape)
    requires t.Node? && t.Kid(cis.Flip()).Node?
    ensures Inorder(Rotated(cis, t)) == Inorder(t)
    ensures Nodes(Rotated(cis, t)) == Nodes(t)
    ensures Tidy(t) ==> Tidy(Rotated(cis, t))
  {
    RotatedOrder(cis, t);
    RotatedTidy(cis, t);
  }

  /** The pieces of a subtree that a rotation takes apart. */
  lemma RotationParts(m: Memory, cis: Side, t: Shape, p: TreeNode?)
    requires t.Node? && t.Kid(cis.Flip()).Node? && Linked(m, t, p) && Tidy(t)
    ensures var q := t.Kid(cis.Flip());
      var a, b, c := t.Kid(cis), q.Kid(cis), q.Kid(cis.Flip());
      && Nodes(t) == {t.n, q.n} + Nodes(a) + Nodes(b) + Nodes(c)
      && t.n != q.n && {t.n, q.n} !! Nodes(a) + Nodes(b) + Nodes(c)
      && Nodes(a) !! Nodes(b) && Nodes(a) !! Nodes(c) && Nodes(b) !! Nodes(c)
      && Tidy(a) && Tidy(b) && Tidy(c)
      && Linked(m, a, t.n) && Linked(m, b, q.n) && Linked(m, c, q.n)
      && m[t.n].Child(cis.Flip()) == q.n && m[t.n].Child(cis) == Root(a) && m[t.n].parent == p
      && q.n in m && m[q.n].Child(cis) == Root(b) && m[q.n].Child(cis.Flip()) == Root(c) && m[q.n].parent == t.n
      && (b.Node? ==> b.n in Nodes(b) && b.n in m)
  {
    assert Linked(m, t.Kid(cis.Flip()), t.n) && Tidy(t.Kid(cis.Flip()));
  }

  /** The memory after `q`, the child of `n` on the side opposite to `cis`, took the place of `n` below `p`. */
  ghost function Turned(m: Memory, cis: Side, n: TreeNode, q: TreeNode, p: TreeNode?): Memory
    requires n in m && q in m
  {
    var b := m[q].Child(cis);
    var m1 := m[n := m[n].With(cis.Flip(), b).(parent := q)];
    var m2 := if b != null && b in m1 then m1[b := m1[b].(parent := n)] else m1;
    m2[q := m2[q].With(cis, n).(parent := p)]
  }

  lemma TurnedIs(m: Memory, m2: Memory, cis: Side, n: TreeNode, q: TreeNode, p: TreeNode?)
    requires n in m && q in m && n != q && m[q].Child(cis) != n && m[q].Child(cis) != q
    requires m2.Keys == m.Keys
    requires m2[n] == m[n].With(cis.Flip(), m[q].Child(cis)).(parent := q)
    requires m2[q] == m[q].With(cis, n).(parent := p)
    requires var b := m[q].Child(cis); b != null && b in m ==> m2[b] == m[b].(parent := n)
    requires forall x | x in m && x != n && x != q && x != m[q].Child(cis) :: m2[x] == m[x]
    ensures m2 == Turned(m, cis, n, q, p)
  {
  }

  lemma TurnedLinked(m: Memory, cis: Side, t: Shape, p: TreeNode?)
    requires t.Node? && t.Kid(cis.Flip()).Node? && Linked(m, t, p) && Tidy(t)
    requires t.n in m && t.Kid(cis.Flip()).n in m
    ensures Linked(Turned(m, cis, t.n, t.Kid(cis.Flip()).n, p), Rotated(cis, t), p)
  {
    var q := t.Kid(cis.Flip());
    var m2 := Turned(m, cis, t.n, q.n, p);
    var a, b, c := t.Kid(cis), q.Kid(cis), q.Kid(cis.Flip());
    RotationParts(m, cis, t, p);
    Rehung(m, m2, a, t.n, t.n);
    Rehung(m, m2, b, q.n, t.n);
    Rehung(m, m2, c, q.n, q.n);
    assert Linked(m2, Build(cis, t.n, t.key, t.red, a, b), q.n);
  }

  /** A rotation below a path that already holds the child `q` of `t`. */
  lemma RotationDone(m: Memory, m1: Memory, cis: Side, p: Path, t: Shape)
    requires t.Node? && t.Kid(cis.Flip()).Node? && Linked(m, t, Last(p)) && Tidy(t)
    requires PathTidy(p) && Nodes(t) !! PathNodes(p)
    requires PathLinked(m1, p, null, t.Kid(cis.Flip()).n)
    requires forall n | n in Nodes(t) && n in m :: n in m1 && m1[n] == m[n]
    ensures var q := t.Kid(cis.Flip()).n;
      && t.n in m1 && q in m1 && t.n != q && m1[q].Child(cis) != t.n && m1[q].Child(cis) != q
      && (m1[q].Child(cis) != null ==> m1[q].Child(cis) in Nodes(t))
      && PathLinked(Turned(m1, cis, t.n, q, Last(p)), p, null, q)
      && Linked(Turned(m1, cis, t.n, q, Last(p)), Rotated(cis, t), Last(p))
  {
    var q := t.Kid(cis.Flip()).n;
    Rehung(m, m1, t, Last(p), Last(p));
    RotationParts(m1, cis, t, Last(p));
    TurnedLinked(m1, cis, t, Last(p));
    PathUntouched(m1, Turned(m1, cis, t.n, q, Last(p)), p, null, q);
  }

  /** `t` is red and fits where it is, but for the colour of its parent. */
  ghost predicate Pushing(p: Path, t: Shape) {
    && t.Node? && t.red && Balanced(t) && NoRedRed(t)
    && PathBalanced(p, BlackHeight(t)) && PathNoRedRed(p) && PathTopBlack(p)
  }

  /** The red `t` below a red parent and a black uncle, after the rotations and the change of colours. */
  ghost function Straightened(p: Path, t: Shape): (Path, Shape)
    requires t.Node? && p.In? && p.up.In?
  {
    var g := p.up;
    var flat := Build(p.s, p.n, p.key, p.red, t, p.other);
    var below := if p.s == g.s then flat else Rotated(g.s, flat);
    var above := Rotated(g.s.Flip(), Build(g.s, g.n, g.key, true, below.(red := false), g.other));
    (In(g.up, g.s, above.n, above.key, above.red, above.Kid(g.s.Flip())), above.Kid(g.s))
  }

  lemma StraightenedPushes(p: Path, t: Shape)
    requires Pushing(p, t) && LastRed(p) && p.up.In? && p.up.other.Black()
    ensures var (q, u) := Straightened(p, t);
      Pushing(q, u) && !LastRed(q) && Whole(q, u) == Whole(p, t) && Depth(q) < Depth(p)
  {
    var g := p.up;
    var (q, u) := Straightened(p, t);
    assert PathBalanced(g, BlackHeight(t)) && PathNoRedRed(g) && !g.red;
    var inner := if p.s == g.s then p.other else t.Kid(g.s.Flip());
    assert q.up == g.up && !q.red && q.other == Build(g.s.Flip(), g.n, g.key, true, g.other, inner);
    assert Balanced(inner) && NoRedRed(inner) && inner.Black() && BlackHeight(inner) == BlackHeight(t);
    assert Balanced(u) && NoRedRed(u) && u.red && BlackHeight(u) == BlackHeight(t);
    assert PathTopBlack(g);
    RotatedWhole(p, t);
  }

  lemma RotatedWhole(p: Path, t: Shape)
    requires t.Node? && t.red && p.In? && p.up.In?
    ensures var (q, u) := Straightened(p, t); Whole(q, u) == Whole(p, t)
  {
    var g := p.up;
    var (q, u) := Straightened(p, t);
    var flat := Build(p.s, p.n, p.key, p.red, t, p.other);
    var below := if p.s == g.s then flat else Rotated(g.s, flat);
    if p.s != g.s { RotatedKeeps(g.s, flat); }
    var black := below.(red := false);
    assert Inorder(black) == Inorder(below) == Inorder(flat);
    var above := Build(g.s, g.n, g.key, true, black, g.other);
    WholeUp(p, t);
    WholeByOrder(g, flat, black);
    WholeUp(g, black);
    WholeByOrder(g.up, Build(g.s, g.n, g.key, g.red, black, g.other), above);
    RotatedKeeps(g.s.Flip(), above);
    WholeByOrder(g.up, above, Rotated(g.s.Flip(), above));
    WholeUp(q, u);
  }

  /** The subtree of the grandparent after a red parent and a red uncle turned black. */
  ghost function Recoloured(p: Path, t: Shape): Shape
    requires p.In? && p.up.In? && p.up.other.Node?
  {
    var g := p.up;
    Build(g.s, g.n, g.key, true, Build(p.s, p.n, p.key, false, t, p.other), g.other.(red := false))
  }

  lemma RecolouredPushes(p: Path, t: Shape)
    requires Pushing(p, t) && LastRed(p) && p.up.In? && p.up.other.Node? && p.up.other.red
    ensures Pushing(p.up.up, Recoloured(p, t))
  {
    var g := p.up;
    var low := Build(p.s, p.n, p.key, false, t, p.other);
    assert PathBalanced(g, BlackHeight(t)) && PathNoRedRed(g) && !g.red && PathTopBlack(g);
    assert Balanced(low) && NoRedRed(low) && BlackHeight(low) == BlackHeight(t) + 1;
  }

  lemma RecolouredWhole(p: Path, t: Shape)
    requires p.In? && p.up.In? && p.up.other.Node?
    ensures Whole(p.up.up, Recoloured(p, t)) == Whole(p, t)
  {
    var g := p.up;
    var low := Build(p.s, p.n, p.key, p.red, t, p.other);
    var black := Build(p.s, p.n, p.key, false, t, p.other);
    WholeUp(p, t);
    WholeByOrder(g, low, black);
    WholeUp(g, black);
    assert Inorder(g.other.(red := false)) == Inorder(g.other);
    WholeByOrder(g.up, Build(g.s, g.n, g.key, g.red, black, g.other), Recoloured(p, t));
  }

  /** Where a new key belongs in the subtree in the hole of `p`. */
  ghost predicate Between(p: Path, key: nat) {
    (forall e | e in Before(p) :: e.key < key) && (forall e | e in After(p) :: key < e.key)
  }

  /** A subtree in its place in a red-black tree. */
  ghost predicate Fits(p: Path, t: Shape) {
    && Balanced(t) && NoRedRed(t) && (LastRed(p) ==> t.Black())
    && PathBalanced(p, BlackHeight(t)) && PathNoRedRed(p) && (if p.Top? then t.Black() else PathTopBlack(p))
  }

  lemma FitsTop(t: Shape)
    ensures Fits(Top, t) <==> RedBlack(t)
    ensures Whole(Top, t) == Inorder(t)
  {
  }

  lemma FitsFill(p: Path, t: Shape)
    ensures Fits(p, t) <==> RedBlack(Fill(p, t))
  {
    FillBalanced(p, t);
    FillNoRedRed(p, t);
    FillBlack(p, t);
  }

  lemma PushedFits(p: Path, t: Shape)
    requires Pushing(p, t) && !LastRed(p)
    ensures Fill(p, t).Node? && RedBlack(Fill(p, t).(red := false))
  {
    FillContents(p, t);
    assert t.n in Nodes(Fill(p, t));
    FillBalanced(p, t);
    FillNoRedRed(p, t);
  }

  lemma Insertion(p: Path, key: nat, node: TreeNode)
    requires Fits(p, Leaf) && Sorted(Whole(p, Leaf)) && Between(p, key)
    ensures var t := Node(node, key, true, Leaf, Leaf);
      && Pushing(p, t) && Sorted(Whole(p, t))
      && Entries(Whole(p, t)) == Entries(Whole(p, Leaf)) + {Entry(key, node)}
  {
    InsertedOrder(Before(p), Entry(key, node), After(p), p);
  }

  lemma InsertedOrder(b: seq<Entry>, e: Entry, a: seq<Entry>, p: Path)
    requires b == Before(p) && a == After(p) && Sorted(Whole(p, Leaf)) && Between(p, e.key)
    ensures var s := Whole(p, Node(e.node, e.key, true, Leaf, Leaf));
      Sorted(s) && Entries(s) == Entries(Whole(p, Leaf)) + {e}
  {
    assert Whole(p, Leaf) == b + a;
    assert Inorder(Node(e.node, e.key, true, Leaf, Leaf)) == [e];
    SortedParts(b, e, a);
  }

  /** One step of a descent that looks for `key`. */
  lemma StepDown(p: Path, t: Shape, d: Side, key: nat)
    requires Fits(p, t) && t.Node? && Sorted(Whole(p, t)) && Between(p, key)
    requires if d == Left then key < t.key else t.key < key
    ensures var q := In(p, d, t.n, t.key, t.red, t.Kid(d.Flip()));
      Fits(q, t.Kid(d)) && Whole(q, t.Kid(d)) == Whole(p, t) && Between(q, key)
  {
    WholeUp(In(p, d, t.n, t.key, t.red, t.Kid(d.Flip())), t.Kid(d));
    StepBetween(p, t, d, key);
  }

  lemma StepBetween(p: Path, t: Shape, d: Side, key: nat)
    requires t.Node? && Sorted(Whole(p, t)) && Between(p, key)
    requires if d == Left then key < t.key else t.key < key
    ensures Between(In(p, d, t.n, t.key, t.red, t.Kid(d.Flip())), key)
  {
    var q := In(p, d, t.n, t.key, t.red, t.Kid(d.Flip()));
    Sides(p, t);
    if d == Left {
      assert After(q) == [Entry(t.key, t.n)] + Inorder(t.right) + After(p);
    } else {
      assert Before(q) == Before(p) + Inorder(t.left) + [Entry(t.key, t.n)];
    }
  }

  /** What lies left and right of the root of a subtree. */
  lemma Sides(p: Path, t: Shape)
    requires t.Node? && Sorted(Whole(p, t))
    ensures forall e | e in Before(p) :: e.key < t.key
    ensures forall e | e in Inorder(t.left) :: e.key < t.key
    ensures forall e | e in Inorder(t.right) :: t.key < e.key
    ensures forall e | e in After(p) :: t.key < e.key
  {
    var l, r := Before(p) + Inorder(t.left), Inorder(t.right) + After(p);
    WholeSplit(p, t);
    SortedParts(l, Entry(t.key, t.n), r);
    assert forall e | e in Inorder(t.left) :: e in l;
    assert forall e | e in Inorder(t.right) :: e in r;
    assert forall e | e in Before(p) :: e in l;
    assert forall e | e in After(p) :: e in r;
  }

  lemma AbsentKey(p: Path, key: nat)
    requires Between(p, key)
    ensures forall e | e in Whole(p, Leaf) :: e.key != key
  {
  }

  // ---------- removal ----------

  /** The fields of the node `n` after `next` took the place of a node with the children
      `left` and `right`; `low` is the parent that `next` left behind with the child `nr`. */
  ghost function SplicedCell(c: Cell, n: TreeNode, next: TreeNode, left: TreeNode, right: TreeNode,
                             low: TreeNode, nr: TreeNode?, up: TreeNode?, red: bool): Cell {
    if n == next then
      Cell(left, if next == right then nr else right, up, c.key, red)
    else
      var c1 := if n == left then c.(parent := next) else c;
      var c2 := if next != right && n == low then c1.(left := nr) else c1;
      var c3 := if next != right && n == right then c2.(parent := next) else c2;
      if n == nr then c3.(parent := if next == right then next else low) else c3
  }

  /** The node `t` with two children, whose successor is the root `x` below the path `d` in its right subtree. */
  ghost predicate Succeeded(t: Shape, d: Path, x: Shape) {
    && t.Node? && t.left.Node? && t.right.Node? && x.Node? && x.left.Leaf?
    && t.right == Fill(d, x) && Before(d) == [] && (d.In? ==> d.s == Left)
  }

  lemma {:induction false} TopNodeIsRoot(d: Path, x: Shape)
    requires d.In?
    ensures Fill(d, x).Node? && TopNode(d) == Fill(d, x).n
  {
    if d.up.In? {
      TopNodeIsRoot(d.up, Build(d.s, d.n, d.key, d.red, x, d.other));
    }
  }

  lemma SuccessorParts(m: Memory, p: Path, t: Shape, d: Path, x: Shape)
    requires Succeeded(t, d, x) && Linked(m, t, Last(p)) && Tidy(t)
    ensures Linked(m, t.left, t.n) && PathLinked(m, d, t.n, x.n) && Linked(m, x, LastOr(d, t.n)) && Linked(m, x.right, x.n)
    ensures PathTidy(d) && Tidy(t.left) && Tidy(x) && Tidy(x.right)
    ensures Nodes(t) == {t.n, x.n} + Nodes(t.left) + PathNodes(d) + Nodes(x.right)
    ensures t.n != x.n && {t.n, x.n} !! Nodes(t.left) + PathNodes(d) + Nodes(x.right)
    ensures Nodes(t.left) !! PathNodes(d) && Nodes(t.left) !! Nodes(x.right) && PathNodes(d) !! Nodes(x.right)
    ensures if d.In? then t.right.n == TopNode(d) else t.right == x
  {
    FillLinked(m, d, x, t.n);
    FillTidy(d, x);
    FillContents(d, x);
    if d.In? { TopNodeIsRoot(d, x); }
  }

  ghost predicate Spliced(m: Memory, m2: Memory, t: Shape, d: Path, x: Shape, up: TreeNode?)
    requires Succeeded(t, d, x)
  {
    forall n | n in m && n != t.n ::
      && n in m2
      && m2[n] == SplicedCell(m[n], n, x.n, t.left.n, t.right.n, if d.Top? then x.n else d.n, Root(x.right), up, t.red)
  }

  /** The part of a splice that concerns the nodes between the removed node and its successor. */
  lemma SplicePath(m: Memory, m2: Memory, p: Path, t: Shape, d: Path, x: Shape)
    requires Succeeded(t, d, x) && Linked(m, t, Last(p)) && Tidy(t) && Spliced(m, m2, t, d, x, Last(p))
    ensures PathLinked(m2, d, x.n, Root(x.right))
  {
    SuccessorParts(m, p, t, d, x);
    if d.In? {
      assert TopNode(d) in Nodes(t) && d.n in PathNodes(d);
      assert d.n in m && TopNode(d) in m by { PathInMemory(m, d, t.n, x.n); }
      PathMoved(m, m2, d, t.n, x.n, x.n, Root(x.right));
    }
  }

  lemma {:induction false} PathInMemory(m: Memory, p: Path, above: TreeNode?, c: TreeNode?)
    requires PathLinked(m, p, above, c) && p.In?
    ensures p.n in m && TopNode(p) in m
  {
    if p.up.In? { PathInMemory(m, p.up, above, p.n); }
  }

  lemma SpliceLeft(m: Memory, m2: Memory, p: Path, t: Shape, d: Path, x: Shape)
    requires Succeeded(t, d, x) && Linked(m, t, Last(p)) && Tidy(t) && Spliced(m, m2, t, d, x, Last(p))
    ensures Linked(m2, t.left, x.n)
  {
    SuccessorParts(m, p, t, d, x);
    SpliceApart(m, p, t, d, x);
    Rehung(m, m2, t.left, t.n, x.n);
  }

  lemma SpliceRight(m: Memory, m2: Memory, p: Path, t: Shape, d: Path, x: Shape)
    requires Succeeded(t, d, x) && Linked(m, t, Last(p)) && Tidy(t) && Spliced(m, m2, t, d, x, Last(p))
    ensures Linked(m2, x.right, LastOr(d, x.n))
  {
    SuccessorParts(m, p, t, d, x);
    SpliceApart(m, p, t, d, x);
    Rehung(m, m2, x.right, x.n, LastOr(d, x.n));
  }

  lemma SpliceApart(m: Memory, p: Path, t: Shape, d: Path, x: Shape)
    requires Succeeded(t, d, x) && Linked(m, t, Last(p)) && Tidy(t)
    ensures t.right.n !in Nodes(t.left) && t.right.n !in Nodes(x.right)
    ensures d.In? ==> d.n !in Nodes(t.left) && d.n !in Nodes(x.right)
    ensures x.n !in Nodes(t.left) + Nodes(x.right) && t.n !in Nodes(t.left) + Nodes(x.right)
    ensures Nodes(t.left) !! Nodes(x.right)
  {
    SuccessorParts(m, p, t, d, x);
  }

  lemma SplicedNodes(m: Memory, p: Path, t: Shape, d: Path, x: Shape)
    requires Succeeded(t, d, x) && Linked(m, t, Last(p)) && Tidy(t)
    ensures {x.n, t.n, t.left.n, t.right.n, if d.Top? then x.n else d.n} <= Nodes(t)
    ensures x.right.Node? ==> x.right.n in Nodes(t)
  {
    SuccessorParts(m, p, t, d, x);
  }

  lemma SpliceAbove(m: Memory, m2: Memory, p: Path, t: Shape, d: Path, x: Shape)
    requires Succeeded(t, d, x) && Linked(m, t, Last(p)) && Tidy(t) && Spliced(m, m2, t, d, x, Last(p))
    requires PathLinked(m, p, null, x.n) && PathTidy(p) && Nodes(t) !! PathNodes(p)
    ensures PathLinked(m2, p, null, x.n)
  {
    SplicedNodes(m, p, t, d, x);
    forall n | n in PathNodes(p) && n in m ensures n in m2 && m2[n] == m[n] {
      assert n !in Nodes(t);
    }
    PathUntouched(m, m2, p, null, x.n);
  }

  lemma SpliceLinked(m: Memory, m2: Memory, p: Path, t: Shape, d: Path, x: Shape)
    requires Succeeded(t, d, x) && Linked(m, t, Last(p)) && Tidy(t) && Spliced(m, m2, t, d, x, Last(p))
    ensures Linked(m2, SplicedShape(t, d, x), Last(p))
  {
    SplicePath(m, m2, p, t, d, x);
    SpliceLeft(m, m2, p, t, d, x);
    SpliceRight(m, m2, p, t, d, x);
    SuccessorParts(m, p, t, d, x);
    FillLinked(m2, d, x.right, x.n);
    if d.In? { TopNodeIsRoot(d, x.right); }
  }

  /** The node that took the place of the root of `t`, with its new subtrees. */
  ghost function SplicedShape(t: Shape, d: Path, x: Shape): Shape
    requires t.Node? && x.Node?
  {
    Node(x.n, x.key, t.red, t.left, Fill(d, x.right))
  }

  lemma SplicedFill(p: Path, t: Shape, d: Path, x: Shape)
    requires t.Node? && x.Node?
    ensures Fill(SplicedPath(p, t, d, x), x.right) == Fill(p, SplicedShape(t, d, x))
  {
    FillCompose(d, In(p, Right, x.n, x.key, t.red, t.left), x.right);
  }

  lemma SplicedTidy(m: Memory, p: Path, t: Shape, d: Path, x: Shape)
    requires Succeeded(t, d, x) && Linked(m, t, Last(p)) && Tidy(t)
    ensures Tidy(SplicedShape(t, d, x)) && Nodes(SplicedShape(t, d, x)) == Nodes(t) - {t.n}
  {
    SuccessorParts(m, p, t, d, x);
    FillTidy(d, x.right);
    FillContents(d, x.right);
  }

  /** The memory holds the tree again once the successor took its place. */
  lemma SpliceHolds(m: Memory, m2: Memory, root: TreeNode?, p: Path, t: Shape, d: Path, x: Shape)
    requires Succeeded(t, d, x) && Linked(m, t, Last(p)) && Tidy(t) && Spliced(m, m2, t, d, x, Last(p))
    requires PathLinked(m, p, null, x.n) && PathTidy(p) && Nodes(t) !! PathNodes(p)
    requires root == TopOf(p, x.n) && m2.Keys == PathNodes(p) + Nodes(t) - {t.n}
    ensures Holds(m2, root, SplicedPath(p, t, d, x), x.right)
  {
    SpliceLinked(m, m2, p, t, d, x);
    SpliceAbove(m, m2, p, t, d, x);
    SplicedTidy(m, p, t, d, x);
    SplicedFill(p, t, d, x);
    HoldsFill(m2, root, p, SplicedShape(t, d, x));
    HoldsFill(m2, root, SplicedPath(p, t, d, x), x.right);
  }

  /** `t` fits its place once the colour `red` of a node that was taken away above it is made up for. */
  ghost predicate Lacking(p: Path, t: Shape, red: bool) {
    && Balanced(t) && NoRedRed(t) && PathNoRedRed(p) && (p.In? ==> PathTopBlack(p))
    && PathBalanced(p, BlackHeight(t) + if red then 0 else 1)
    && (red ==> t.Black())
  }

  /** The path to the hole that a spliced successor leaves behind. */
  ghost function SplicedPath(p: Path, t: Shape, d: Path, x: Shape): Path
    requires t.Node? && x.Node?
  {
    Compose(d, In(p, Right, x.n, x.key, t.red, t.left))
  }

  lemma SplicedLacks(p: Path, t: Shape, d: Path, x: Shape)
    requires Fits(p, t) && Succeeded(t, d, x)
    ensures Lacking(SplicedPath(p, t, d, x), x.right, x.red)
  {
    var a, b := In(p, Right, t.n, t.key, t.red, t.left), In(p, Right, x.n, x.key, t.red, t.left);
    FillCompose(d, a, x);
    FitsFill(p, t);
    FitsFill(Compose(d, a), x);
    ComposeColours(d, a, b, BlackHeight(x));
  }

  /** The order of entries without the root of `t`. */
  ghost function Without(p: Path, t: Shape): seq<Entry>
    requires t.Node?
  {
    (Before(p) + Inorder(t.left)) + (Inorder(t.right) + After(p))
  }

  lemma WithoutRoot(p: Path, t: Shape)
    requires t.Node? && Sorted(Whole(p, t))
    ensures Sorted(Without(p, t)) && Entries(Without(p, t)) == Entries(Whole(p, t)) - {Entry(t.key, t.n)}
  {
    WholeSplit(p, t);
    SortedParts(Before(p) + Inorder(t.left), Entry(t.key, t.n), Inorder(t.right) + After(p));
  }

  lemma WholeSplit(p: Path, t: Shape)
    requires t.Node?
    ensures Whole(p, t) == (Before(p) + Inorder(t.left)) + [Entry(t.key, t.n)] + (Inorder(t.right) + After(p))
  {
  }

  lemma SplicedWhole(p: Path, t: Shape, d: Path, x: Shape)
    requires Succeeded(t, d, x)
    ensures Whole(SplicedPath(p, t, d, x), x.right) == Without(p, t)
  {
    var q := SplicedPath(p, t, d, x);
    var u := SplicedShape(t, d, x);
    SplicedFill(p, t, d, x);
    FillContents(q, x.right);
    FillContents(p, u);
    SplicedOrder(t, d, x);
  }

  lemma SplicedOrder(t: Shape, d: Path, x: Shape)
    requires Succeeded(t, d, x)
    ensures Inorder(SplicedShape(t, d, x)) == Inorder(t.left) + Inorder(t.right)
  {
    FillContents(d, x.right);
    FillContents(d, x);
    assert Inorder(x) == [Entry(x.key, x.n)] + Inorder(x.right);
  }

  /** A node with at most one child gives way to it. */
  lemma OnlyChild(p: Path, t: Shape, u: Shape)
    requires Fits(p, t) && t.Node?
    requires (t.left.Leaf? && u == t.right) || (t.right.Leaf? && u == t.left)
    ensures Lacking(p, u, t.red) && Whole(p, u) == Without(p, t)
  {
  }

  lemma LiftedHolds(m: Memory, m1: Memory, m2: Memory, root: TreeNode?, p: Path, t: Shape, u: Shape)
    requires t.Node? && Linked(m, t, Last(p)) && Tidy(t) && PathTidy(p) && Nodes(t) !! PathNodes(p)
    requires (t.left.Leaf? && u == t.right) || (t.right.Leaf? && u == t.left)
    requires root == TopOf(p, Root(u)) && PathLinked(m1, p, null, Root(u)) && m2.Keys == PathNodes(p) + Nodes(t) - {t.n}
    requires forall n | n in m1 && n in Nodes(t) :: n in m && m1[n] == m[n]
    requires forall n | n in m2 && n != Root(u) :: n in m1 && m2[n] == m1[n]
    requires u.Node? ==> u.n in m1 && u.n in m2 && m2[u.n] == m1[u.n].(parent := Last(p))
    ensures Holds(m2, root, p, u)
  {
    Rehung(m, m2, u, t.n, Last(p));
    PathUntouched(m1, m2, p, null, Root(u));
  }

  /** The path after a red sibling changed places with the parent. */
  ghost function SiblingTurned(p: Path): Path
    requires p.In? && p.other.Node?
  {
    In(In(p.up, p.s, p.other.n, p.other.key, false, p.other.Kid(p.s.Flip())), p.s, p.n, p.key, true, p.other.Kid(p.s))
  }

  lemma SiblingTurnedLacks(p: Path, t: Shape)
    requires Lacking(p, t, false) && t.Black() && p.In? && p.other.Node? && p.other.red
    ensures var q := SiblingTurned(p);
      Lacking(q, t, false) && q.other.Node? && !q.other.red && Whole(q, t) == Whole(p, t)
  {
    var q := SiblingTurned(p);
    var old1 := Build(p.s, p.n, p.key, p.red, t, p.other);
    assert !p.red;
    assert Balanced(p.other.Kid(p.s)) && NoRedRed(p.other.Kid(p.s)) && p.other.Kid(p.s).Black();
    assert Balanced(p.other.Kid(p.s.Flip())) && NoRedRed(p.other.Kid(p.s.Flip())) && p.other.Kid(p.s.Flip()).Black();
    WholeUp(p, t);
    RotatedKeeps(p.s, old1);
    WholeByOrder(p.up, old1, Rotated(p.s, old1));
    WholeUp(q, t);
    WholeUp(q.up, Build(q.s, q.n, q.key, q.red, t, q.other));
    WholeByOrder(p.up, Rotated(p.s, old1), Build(q.up.s, q.up.n, q.up.key, q.up.red, Build(q.s, q.n, q.key, q.red, t, q.other), q.up.other));
  }

  /** The sibling with a red child on the far side. */
  ghost function FarRed(s: Side, sib: Shape): Shape
    requires sib.Node? && (!sib.Kid(s.Flip()).Black() || !sib.Kid(s).Black())
  {
    if !sib.Kid(s.Flip()).Black() then sib else
      Rotated(s.Flip(), Build(s, sib.n, sib.key, true, sib.Kid(s).(red := false), sib.Kid(s.Flip())))
  }

  /** The subtree of the parent after a red child of the sibling made up for the missing black node. */
  ghost function NephewTurned(p: Path, t: Shape): Shape
    requires p.In? && p.other.Node? && (!p.other.Kid(p.s.Flip()).Black() || !p.other.Kid(p.s).Black())
    requires FarRed(p.s, p.other).Node? && FarRed(p.s, p.other).Kid(p.s.Flip()).Node?
  {
    var sib := FarRed(p.s, p.other);
    var far := sib.Kid(p.s.Flip()).(red := false);
    Rotated(p.s, Build(p.s, p.n, p.key, false, t, Build(p.s, sib.n, sib.key, p.red, sib.Kid(p.s), far)))
  }

  lemma FarRedKeeps(s: Side, sib: Shape)
    requires sib.Node? && !sib.red && Balanced(sib) && NoRedRed(sib)
    requires !sib.Kid(s.Flip()).Black() || !sib.Kid(s).Black()
    ensures var f := FarRed(s, sib);
      && f.Node? && !f.Kid(s.Flip()).Black() && Balanced(f) && NoRedRed(f) && BlackHeight(f) == BlackHeight(sib)
      && Inorder(f) == Inorder(sib)
  {
    if sib.Kid(s.Flip()).Black() {
      var painted := Build(s, sib.n, sib.key, true, sib.Kid(s).(red := false), sib.Kid(s.Flip()));
      assert Inorder(sib.Kid(s).(red := false)) == Inorder(sib.Kid(s));
      assert Inorder(painted) == Inorder(sib);
      RotatedKeeps(s.Flip(), painted);
      assert Balanced(sib.Kid(s)) && NoRedRed(sib.Kid(s)) && sib.Kid(s).red;
    }
  }

  lemma NephewTurnedFits(p: Path, t: Shape)
    requires Lacking(p, t, false) && p.In? && p.other.Node? && !p.other.red
    requires !p.other.Kid(p.s.Flip()).Black() || !p.other.Kid(p.s).Black()
    ensures FarRed(p.s, p.other).Node? && FarRed(p.s, p.other).Kid(p.s.Flip()).Node?
    ensures Fits(p.up, NephewTurned(p, t))
  {
    FarRedKeeps(p.s, p.other);
    var f := FarRed(p.s, p.other);
    NephewsFit(p, t, f);
    var low, far := Build(p.s, p.n, p.key, false, t, f.Kid(p.s)), f.Kid(p.s.Flip()).(red := false);
    assert NephewTurned(p, t) == Build(p.s, f.n, f.key, p.red, low, far);
  }

  /** The two subtrees of the node that comes to the top. */
  lemma NephewsFit(p: Path, t: Shape, f: Shape)
    requires Lacking(p, t, false) && p.In? && p.other.Node? && !p.other.red && BlackHeight(f) == BlackHeight(p.other)
    requires f.Node? && !f.red && f.Kid(p.s.Flip()).Node? && f.Kid(p.s.Flip()).red && Balanced(f) && NoRedRed(f)
    ensures var low, far := Build(p.s, p.n, p.key, false, t, f.Kid(p.s)), f.Kid(p.s.Flip()).(red := false);
      && Balanced(low) && NoRedRed(low) && Balanced(far) && NoRedRed(far)
      && BlackHeight(low) == BlackHeight(far) == BlackHeight(t) + 1
  {
    var far, near := f.Kid(p.s.Flip()), f.Kid(p.s);
    assert Balanced(far) && NoRedRed(far) && Balanced(near) && NoRedRed(near);
    assert BlackHeight(near) == BlackHeight(far) == BlackHeight(t);
  }

  lemma NephewTurnedWhole(p: Path, t: Shape)
    requires p.In? && p.other.Node? && !p.other.red && Balanced(p.other) && NoRedRed(p.other)
    requires !p.other.Kid(p.s.Flip()).Black() || !p.other.Kid(p.s).Black()
    ensures FarRed(p.s, p.other).Node? && FarRed(p.s, p.other).Kid(p.s.Flip()).Node?
    ensures Whole(p.up, NephewTurned(p, t)) == Whole(p, t)
  {
    FarRedKeeps(p.s, p.other);
    var f := FarRed(p.s, p.other);
    var far := f.Kid(p.s.Flip()).(red := false);
    assert Inorder(far) == Inorder(f.Kid(p.s.Flip()));
    var f1 := Build(p.s, f.n, f.key, p.red, f.Kid(p.s), far);
    assert Inorder(f1) == Inorder(f) == Inorder(p.other);
    var flat := Build(p.s, p.n, p.key, false, t, f1);
    assert Inorder(flat) == Inorder(Build(p.s, p.n, p.key, p.red, t, p.other));
    RotatedKeeps(p.s, flat);
    WholeUp(p, t);
    WholeByOrder(p.up, Build(p.s, p.n, p.key, p.red, t, p.other), NephewTurned(p, t));
  }

  ghost function Blackened(t: Shape): Shape {
    if t.Leaf? then t else t.(red := false)
  }

  /** The parent's subtree after its black sibling without red children turned red. */
  ghost function SiblingReddened(p: Path, t: Shape): Shape
    requires p.In? && p.other.Node?
  {
    Build(p.s, p.n, p.key, p.red, t, p.other.(red := true))
  }

  lemma SiblingReddenedLacks(p: Path, t: Shape)
    requires Lacking(p, t, false) && t.Black() && p.In? && p.other.Node? && !p.other.red
    requires p.other.Kid(p.s.Flip()).Black() && p.other.Kid(p.s).Black()
    ensures var u := SiblingReddened(p, t);
      && (if p.red then Fits(p.up, Blackened(u)) else Lacking(p.up, u, false) && u.Black())
      && Whole(p.up, u) == Whole(p, t)
  {
    var u := SiblingReddened(p, t);
    assert Balanced(p.other.(red := true)) && NoRedRed(p.other.(red := true));
    assert Inorder(p.other.(red := true)) == Inorder(p.other);
    WholeUp(p, t);
    WholeByOrder(p.up, Build(p.s, p.n, p.key, p.red, t, p.other), u);
  }

  lemma HasSibling(p: Path, t: Shape)
    requires Lacking(p, t, false) && p.In?
    ensures p.other.Node?
  {
  }

  lemma {:induction false} TopOfIn(p: Path, c: TreeNode?)
    requires p.In?
    ensures TopOf(p, c) != null && TopOf(p, c) in PathNodes(p)
  {
    if p.up.In? { TopOfIn(p.up, p.n); }
  }

  class Tree {
    var root: TreeNode?
    ghost var shape: Shape

    ghost predicate Valid()
      reads this, Nodes(shape)
    {
      root == Root(shape) && Linked(Cells(Nodes(shape)), shape, null) && Tidy(shape) && RedBlack(shape) && Sorted(Inorder(shape))
    }

    /** The nodes `s` under this tree form `t` in the hole of `p`. */
    ghost predicate At(s: set<TreeNode>, p: Path, t: Shape)
      reads this, s
    {
      s == PathNodes(p) + Nodes(t) && Holds(Cells(s), root, p, t)
    }

    constructor ()
      ensures Valid() && shape == Leaf
    {
      root := null;
      shape := Leaf;
    }

    /** Puts `next` where `node` hangs: below `parent`, or at the root. */
    method Replace(node: TreeNode, parent: TreeNode?, next: TreeNode?, ghost s: set<TreeNode>, ghost p: Path)
      requires root == TopOf(p, node) && PathLinked(Cells(s), p, null, node) && PathTidy(p) && node !in PathNodes(p)
      requires parent == Last(p) && PathNodes(p) <= s
      modifies this`root, PathNodes(p)
      ensures root == TopOf(p, next) && PathLinked(Cells(s), p, null, next)
      ensures parent != null ==> forall n | n in s && n != parent :: Cells(s)[n] == old(Cells(s))[n]
      ensures parent == null ==> Cells(s) == old(Cells(s))
    {
      ghost var m := Cells(s);
      if parent != null {
        assert m[parent] == parent.Fields();
        assert Root(p.other) != null ==> Root(p.other) in PathNodes(p);
        if parent.left == node { parent.left := next; } else { parent.right := next; }
        Hung(m, Cells(s), p, null, node, next);
      } else {
        root := next;
      }
    }

    /** The links between two nodes that change places. */
    method Turn(cis: Side, node: TreeNode, q: TreeNode, parent: TreeNode?)
      requires node != q && q.Child(cis) != node && q.Child(cis) != q
      modifies node, q, if q.Child(cis) == null then {} else {q.Child(cis)}
      ensures node.Fields() == old(node.Fields()).With(cis.Flip(), old(q.Child(cis))).(parent := q)
      ensures q.Fields() == old(q.Fields()).With(cis, node).(parent := parent)
      ensures old(q.Child(cis)) != null ==>
        old(q.Child(cis)).Fields() == old(q.Child(cis).Fields()).(parent := node)
    {
      q.parent := parent;
      node.parent := q;
      if cis == Left {
        node.right := q.left;
        if node.right != null { node.right.parent := node; }
        q.left := node;
      } else {
        node.left := q.right;
        if node.left != null { node.left.parent := node; }
        q.right := node;
      }
    }

    /** `Turn`, seen from a set of nodes. */
    method TurnWithin(cis: Side, node: TreeNode, q: TreeNode, parent: TreeNode?, ghost s: set<TreeNode>)
      requires {node, q} <= s && node != q && q.Child(cis) != node && q.Child(cis) != q
      requires q.Child(cis) != null ==> q.Child(cis) in s
      modifies s
      ensures Cells(s) == Turned(old(Cells(s)), cis, node, q, parent)
    {
      ghost var m := Cells(s);
      assert m[node] == node.Fields() && m[q] == q.Fields();
      Turn(cis, node, q, parent);
      assert forall x | x in s && x != node && x != q && x != m[q].Child(cis) :: x.Fields() == m[x];
      TurnedIs(m, Cells(s), cis, node, q, parent);
    }

    /** The first half of a rotation: `q` hangs where `node` hung, ready to be turned. */
    method Lift(cis: Side, node: TreeNode, q: TreeNode, parent: TreeNode?, ghost s: set<TreeNode>, ghost p: Path, ghost t: Shape)
      requires At(s, p, t) && t.Node? && t.n == node && t.Kid(cis.Flip()).Node? && t.Kid(cis.Flip()).n == q
      requires parent == Last(p)
      modifies this`root, PathNodes(p)
      ensures root == TopOf(p, q) && node in s && q in s && node != q
      ensures q.Child(cis) != node && q.Child(cis) != q && (q.Child(cis) != null ==> q.Child(cis) in s)
      ensures PathLinked(Turned(Cells(s), cis, node, q, parent), p, null, q)
      ensures Linked(Turned(Cells(s), cis, node, q, parent), Rotated(cis, t), parent)
    {
      ghost var m := Cells(s);
      RotationParts(m, cis, t, Last(p));
      Replace(node, parent, q, s, p);
      RotationDone(m, Cells(s), cis, p, t);
      assert Cells(s)[q] == q.Fields();
    }

    method Rotate(cis: Side, node: TreeNode, ghost s: set<TreeNode>, ghost p: Path, ghost t: Shape)
      requires At(s, p, t) && t.Node? && t.n == node && t.Kid(cis.Flip()).Node?
      modifies this`root, s
      ensures At(s, p, Rotated(cis, t))
    {
      RotatedKeeps(cis, t);
      assert Cells(s)[node] == node.Fields();
      var q := node.Child(cis.Flip());
      var parent := node.parent;
      Lift(cis, node, q, parent, s, p, t);
      TurnWithin(cis, node, q, parent, s);
    }

    /** The same tree seen from another of its places. */
    lemma Refocus(s: set<TreeNode>, p: Path, t: Shape, q: Path, u: Shape)
      requires At(s, p, t) && Fill(p, t) == Fill(q, u)
      ensures At(s, q, u)
    {
      HoldsFill(Cells(s), root, p, t);
      HoldsFill(Cells(s), root, q, u);
    }

    /** Assigns a node's colour. */
    method Paint(node: TreeNode, red: bool, ghost s: set<TreeNode>, ghost p: Path, ghost t: Shape)
      requires At(s, p, t) && t.Node? && t.n == node
      modifies node`red
      ensures At(s, p, t.(red := red))
    {
      ghost var m := Cells(s);
      node.red := red;
      Rehung(m, Cells(s), t.left, t.n, t.n);
      Rehung(m, Cells(s), t.right, t.n, t.n);
      PathUntouched(m, Cells(s), p, null, t.n);
    }

    /** One round of the rebalancing after an insertion; `cis` is the side of the parent. */
    method RebalanceAfterInsert(cis: Side, lower: TreeNode, parent: TreeNode, ghost s: set<TreeNode>, ghost p: Path, ghost t: Shape)
      returns (node: TreeNode, ghost q: Path, ghost u: Shape)
      requires At(s, p, t) && Pushing(p, t) && t.n == lower && LastRed(p) && p.n == parent && p.up.In? && p.up.s == cis
      modifies this`root, s
      ensures At(s, q, u) && Pushing(q, u) && u.n == node && node.parent == Last(q)
      ensures Whole(q, u) == Whole(p, t) && Depth(q) < Depth(p)
    {
      Family(s, p, t);
      var grandparent := parent.parent;
      var uncle := grandparent.Child(cis.Flip());
      if uncle != null && uncle.red {
        RecolouredPushes(p, t);
        RecolouredWhole(p, t);
        RecolorAfterInsert(cis, parent, uncle, grandparent, s, p, t);
        node, q, u := grandparent, p.up.up, Recoloured(p, t);
      } else {
        StraightenedPushes(p, t);
        node, q, u := RotateAfterInsert(cis, lower, parent, grandparent, s, p, t);
      }
      assert Cells(s)[node] == node.Fields();
    }

    /** The links that a round of the rebalancing after an insertion reads. */
    lemma Family(s: set<TreeNode>, p: Path, t: Shape)
      requires At(s, p, t) && t.Node? && p.In? && p.up.In?
      ensures t.n.parent == p.n && p.n.parent == p.up.n
      ensures p.n.Child(p.s) == t.n && p.up.n.Child(p.up.s) == p.n
      ensures p.n.Child(p.s.Flip()) == Root(p.other) && p.up.n.Child(p.up.s.Flip()) == Root(p.up.other)
      ensures p.up.other.Node? ==> p.up.other.n.red == p.up.other.red
    {
      var m, g := Cells(s), p.up;
      assert PathLinked(m, g, null, p.n) && Linked(m, g.other, g.n);
      assert m[t.n] == t.n.Fields() && m[p.n] == p.n.Fields() && m[g.n] == g.n.Fields();
      assert g.other.Node? ==> m[g.other.n] == g.other.n.Fields();
      assert forall x | x in s, d :: x.Fields().Child(d) == x.Child(d);
    }

    /** A red uncle: the colours change and the grandparent goes on. */
    method RecolorAfterInsert(cis: Side, parent: TreeNode, uncle: TreeNode, grandparent: TreeNode,
                              ghost s: set<TreeNode>, ghost p: Path, ghost t: Shape)
      requires At(s, p, t) && t.Node? && p.In? && p.up.In? && p.up.s == cis
      requires p.n == parent && p.up.n == grandparent && p.up.other.Node? && p.up.other.n == uncle && p.up.other.red
      modifies s
      ensures At(s, p.up.up, Recoloured(p, t))
    {
      ghost var g := p.up;
      ghost var below := Build(p.s, p.n, p.key, p.red, t, p.other);
      ghost var black := below.(red := false);
      ghost var beside := In(g.up, cis.Flip(), g.n, g.key, g.red, black);
      ghost var above := Build(cis, g.n, g.key, g.red, black, g.other.(red := false));
      Refocus(s, p, t, g, below);
      Paint(parent, false, s, g, below);
      Refocus(s, g, black, beside, g.other);
      Paint(uncle, false, s, beside, g.other);
      Refocus(s, beside, g.other.(red := false), g.up, above);
      Paint(grandparent, true, s, g.up, above);
    }

    /** A black uncle: at most two rotations, after which the parent is black. */
    method RotateAfterInsert(cis: Side, lower: TreeNode, upper: TreeNode, grandparent: TreeNode,
                             ghost s: set<TreeNode>, ghost p: Path, ghost t: Shape)
      returns (node: TreeNode, ghost q: Path, ghost u: Shape)
      requires At(s, p, t) && Pushing(p, t) && LastRed(p) && p.up.In? && p.up.s == cis && p.up.other.Black()
      requires t.n == lower && p.n == upper && p.up.n == grandparent
      modifies this`root, s
      ensures At(s, q, u) && u.Node? && u.n == node
      ensures (q, u) == Straightened(p, t)
    {
      var trans := cis.Flip();
      var parent := upper;
      node := lower;
      Family(s, p, t);
      ghost var g := p.up;
      ghost var below := Build(p.s, p.n, p.key, p.red, t, p.other);
      Refocus(s, p, t, g, below);
      if node == parent.Child(trans) {
        Rotate(cis, parent, s, g, below);
        below := Rotated(cis, below);
        node, parent := parent, node;
      }
      Paint(parent, false, s, g, below);
      below := below.(red := false);
      ghost var above := Build(cis, g.n, g.key, g.red, below, g.other);
      Refocus(s, g, below, g.up, above);
      Paint(grandparent, true, s, g.up, above);
      above := above.(red := true);
      Rotate(trans, grandparent, s, g.up, above);
      above := Rotated(trans, above);
      q, u := In(g.up, cis, above.n, above.key, above.red, above.Kid(trans)), above.Kid(cis);
      Refocus(s, g.up, above, q, u);
    }

    /** The descent to the place where a key is missing; `ok` is false when the key is taken. */
    method FindPlace(key: nat) returns (ok: bool, parent: TreeNode?, d: Side, ghost p: Path)
      requires Valid()
      ensures Valid() && (ok <==> forall e | e in Contents(shape) :: e.key != key)
      ensures ok ==> At(Nodes(shape), p, Leaf) && Last(p) == parent && (p.In? ==> p.s == d)
      ensures ok ==> Fits(p, Leaf) && Whole(p, Leaf) == Inorder(shape) && Between(p, key)
    {
      ghost var s, t := Nodes(shape), shape;
      parent, d, p := null, Left, Top;
      var next := root;
      while next != null
        invariant Valid() && At(s, p, t) && Last(p) == parent && next == Root(t) && (p.In? ==> p.s == d)
        invariant Fits(p, t) && Whole(p, t) == Inorder(shape) && Between(p, key)
        decreases t
      {
        parent := next;
        assert Cells(s)[parent] == parent.Fields();
        if key == parent.key {
          assert Entry(key, parent) in Whole(p, t);
          return false, parent, d, p;
        }
        d := if key < parent.key then Left else Right;
        StepDown(p, t, d, key);
        assert parent.Fields().Child(d) == parent.Child(d);
        next := parent.Child(d);
        ghost var q := In(p, d, t.n, t.key, t.red, t.Kid(d.Flip()));
        Refocus(s, p, t, q, t.Kid(d));
        p, t := q, t.Kid(d);
      }
      AbsentKey(p, key);
      return true, parent, d, p;
    }

    method HangLeaf(parent: TreeNode?, d: Side, node: TreeNode, ghost s: set<TreeNode>, ghost p: Path)
      requires At(s, p, Leaf) && Last(p) == parent && (p.In? ==> p.s == d)
      modifies this`root, PathNodes(p)
      ensures root == TopOf(p, node) && PathLinked(Cells(s), p, null, node)
    {
      ghost var m := Cells(s);
      if parent != null {
        assert m[parent] == parent.Fields();
        parent.SetChild(d, node);
        Hung(m, Cells(s), p, null, null, node);
      } else {
        root := node;
      }
    }

    /** The fields of a node that was just hung. */
    method InitLeaf(node: TreeNode, key: nat, parent: TreeNode?, ghost s: set<TreeNode>, ghost p: Path)
      requires PathNodes(p) == s && PathTidy(p) && parent == Last(p) && node !in s
      requires root == TopOf(p, node) && PathLinked(Cells(s), p, null, node)
      modifies node
      ensures At(s + {node}, p, Node(node, key, true, Leaf, Leaf))
    {
      ghost var m := Cells(s);
      node.key := key;
      node.left, node.right := null, null;
      node.parent := parent;
      node.red := true;
      ghost var m2, t := Cells(s + {node}), Node(node, key, true, Leaf, Leaf);
      PathUntouched(m, m2, p, null, node);
      assert m2[node] == Cell(null, null, parent, key, true);
      assert Tidy(t) && Nodes(t) == {node};
      assert Linked(m2, t, Last(p));
    }

    method Add(node: TreeNode, key: nat) returns (r: int)
      requires Valid() && node !in Nodes(shape)
      modifies this, Nodes(shape), node
      ensures Valid() && (r == -1 || r == 0)
      ensures r == -1 <==> exists e :: e in old(Contents(shape)) && e.key == key
      ensures r == -1 ==> shape == old(shape) && node.Fields() == old(node.Fields())
      ensures r == 0 ==> Contents(shape) == old(Contents(shape)) + {Entry(key, node)}
      ensures r == 0 ==> Nodes(shape) == old(Nodes(shape)) + {node}
    {
      var ok, parent, d, p := FindPlace(key);
      if !ok { return -1; }
      HangLeaf(parent, d, node, Nodes(shape), p);
      InitLeaf(node, key, parent, Nodes(shape), p);
      ghost var s, t := Nodes(shape) + {node}, Node(node, key, true, Leaf, Leaf);
      Insertion(p, key, node);
      Rebalance(node, parent, s, p, t);
      return 0;
    }

    /** The rebalancing after an insertion. */
    method Rebalance(node: TreeNode, upper: TreeNode?, ghost s: set<TreeNode>, ghost at: Path, ghost hung: Shape)
      requires At(s, at, hung) && Pushing(at, hung) && hung.n == node && upper == Last(at) && Sorted(Whole(at, hung))
      modifies this, s
      ensures Valid() && Nodes(shape) == s && Inorder(shape) == Whole(at, hung)
    {
      var x, parent := node, upper;
      ghost var p, t := at, hung;
      while parent != null && parent.red
        invariant At(s, p, t) && Pushing(p, t) && t.n == x && parent == Last(p)
        invariant Whole(p, t) == Whole(at, hung)
        decreases Depth(p)
      {
        assert Cells(s)[parent] == parent.Fields();
        Family(s, p, t);
        var cis := if parent == parent.parent.left then Left else Right;
        x, p, t := RebalanceAfterInsert(cis, x, parent, s, p, t);
        parent := x.parent;
      }
      assert parent != null ==> Cells(s)[parent] == parent.Fields();
      BlackenRoot(s, p, t);
    }

    /** The last step of an insertion. */
    method BlackenRoot(ghost s: set<TreeNode>, ghost p: Path, ghost t: Shape)
      requires At(s, p, t) && Pushing(p, t) && !LastRed(p) && Sorted(Whole(p, t))
      modifies this`shape, s
      ensures Valid() && Nodes(shape) == s && Inorder(shape) == Whole(p, t)
    {
      ghost var w := Fill(p, t);
      Refocus(s, p, t, Top, w);
      PushedFits(p, t);
      FillContents(p, t);
      Paint(root, false, s, Top, w);
      shape := w.(red := false);
    }

    /** The leftmost node of the right subtree. */
    method Successor(node: TreeNode, ghost s: set<TreeNode>, ghost p: Path, ghost t: Shape)
      returns (next: TreeNode, ghost d: Path, ghost x: Shape)
      requires At(s, p, t) && t.Node? && t.n == node && t.left.Node? && t.right.Node?
      ensures Succeeded(t, d, x) && x.n == next && At(s, p, t)
    {
      ghost var m := Cells(s);
      assert m[node] == node.Fields();
      next := node.right;
      d, x := Top, t.right;
      ghost var up := node;
      assert m[next] == next.Fields();
      while next.left != null
        invariant At(s, p, t) && Cells(s) == m && next in s && next.Fields() == m[next]
        invariant Fill(d, x) == t.right && Before(d) == [] && (d.In? ==> d.s == Left)
        invariant x.Node? && x.n == next && Linked(m, x, up)
        decreases x
      {
        up := next;
        next := next.left;
        d, x := In(d, Left, x.n, x.key, x.red, x.right), x.left;
        assert m[next] == next.Fields();
      }
    }

    /** The links that `next` takes in any case. */
    method TakeLeft(next: TreeNode, left: TreeNode, up: TreeNode?, isRed: bool) returns (parent: TreeNode?)
      requires left != next
      modifies next, left
      ensures next.Fields() == old(next.Fields()).(left := left, parent := up, red := isRed)
      ensures left.Fields() == old(left.Fields()).(parent := next) && parent == old(next.parent)
    {
      next.red := isRed;
      next.left := left;
      left.parent := next;
      parent := next.parent;
      next.parent := up;
    }

    /** The links that `next` takes besides when it is not the right child of the node. */
    method TakeRight(next: TreeNode, right: TreeNode, parent: TreeNode, node: TreeNode?)
      requires next != right && parent != next && (node != null ==> node !in {next, right, parent})
      modifies next, right, parent, node
      ensures next.Fields() == old(next.Fields()).(right := right)
      ensures right.Fields() == old(right.Fields()).(parent := next, left := if right == parent then node else old(right.left))
      ensures parent != right ==> parent.Fields() == old(parent.Fields()).(left := node)
      ensures node != null ==> node.Fields() == old(node.Fields()).(parent := parent)
    {
      parent.left := node;
      next.right := right;
      right.parent := next;
      if node != null {
        node.parent := parent;
      }
    }

    /** `TakePlace` when `next` is not the right child of the node. */
    method TakeFar(next: TreeNode, left: TreeNode, right: TreeNode, up: TreeNode?, isRed: bool, ghost s: set<TreeNode>)
      returns (node: TreeNode?, parent: TreeNode)
      requires {next, left, right} <= s && left != next && left != right && next != right
      requires next.parent != null && next.parent in s && next.parent != next && next.parent != left
      requires next.right != null ==> next.right in s && next.right !in {next, left, right, next.parent}
      modifies s
      ensures node == old(next.right) && parent == old(next.parent)
      ensures forall n | n in s ::
        n.Fields() == SplicedCell(old(n.Fields()), n, next, left, right, parent, node, up, isRed)
    {
      parent := TakeLeft(next, left, up, isRed);
      node := next.right;
      TakeRight(next, right, parent, node);
    }

    /** `TakePlace` when `next` is the right child of the node. */
    method TakeNear(next: TreeNode, left: TreeNode, up: TreeNode?, isRed: bool, ghost s: set<TreeNode>)
      returns (node: TreeNode?, parent: TreeNode)
      requires {next, left} <= s && left != next && (next.right != null ==> next.right in s && next.right !in {next, left})
      modifies s
      ensures node == old(next.right) && parent == next
      ensures forall n | n in s ::
        n.Fields() == SplicedCell(old(n.Fields()), n, next, left, next, next, node, up, isRed)
    {
      var _ := TakeLeft(next, left, up, isRed);
      parent := next;
      node := next.right;
      if node != null {
        node.parent := parent;
      }
    }

    /** `next` takes the links of the node whose children are `left` and `right`. */
    method TakePlace(next: TreeNode, left: TreeNode, right: TreeNode, up: TreeNode?, isRed: bool, ghost s: set<TreeNode>)
      returns (node: TreeNode?, parent: TreeNode, red: bool)
      requires {next, left, right} <= s && left != next && left != right
      requires next != right ==> next.parent != null && next.parent in s && next.parent != next && next.parent != left
      requires next.right != null ==> next.right in s && next.right !in {next, left, right}
      requires next != right ==> next.right != next.parent
      modifies s
      ensures node == old(next.right) && red == old(next.red)
      ensures parent == if next == right then next else old(next.parent)
      ensures forall n | n in s ::
        n.Fields() == SplicedCell(old(n.Fields()), n, next, left, right, parent, node, up, isRed)
    {
      red := next.red;
      if next != right {
        node, parent := TakeFar(next, left, right, up, isRed, s);
      } else {
        node, parent := TakeNear(next, left, up, isRed, s);
      }
    }

    /** `TakePlace`, seen from the tree. */
    method TakePlaceIn(node: TreeNode, next: TreeNode, left: TreeNode, right: TreeNode, up: TreeNode?, isRed: bool,
                       ghost s: set<TreeNode>, ghost p: Path, ghost t: Shape, ghost d: Path, ghost x: Shape)
      returns (child: TreeNode?, parent: TreeNode, red: bool)
      requires Succeeded(t, d, x) && Linked(Cells(s), t, up) && Tidy(t) && Nodes(t) <= s && up == Last(p)
      requires node == t.n && next == x.n && left == t.left.n && right == t.right.n && isRed == t.red
      modifies s
      ensures Spliced(old(Cells(s)), Cells(s - {node}), t, d, x, up)
      ensures child == Root(x.right) && red == x.red && parent == LastOr(d, next)
    {
      ghost var m := Cells(s);
      SuccessorParts(m, p, t, d, x);
      assert m[next] == next.Fields();
      child, parent, red := TakePlace(next, left, right, up, isRed, s);
    }

    /** The parent of a node gets another child instead. */
    method Vacate(node: TreeNode, next: TreeNode?, ghost s: set<TreeNode>, ghost p: Path, ghost t: Shape)
      requires At(s, p, t) && t.Node? && t.n == node
      modifies this`root, PathNodes(p)
      ensures root == TopOf(p, next) && PathLinked(Cells(s), p, null, next) && Linked(Cells(s), t, Last(p))
      ensures forall n | n in Nodes(t) :: n in s && Cells(s)[n] == old(Cells(s))[n]
    {
      ghost var m := Cells(s);
      assert m[node] == node.Fields();
      Replace(node, node.parent, next, s, p);
      Rehung(m, Cells(s), t, Last(p), Last(p));
    }

    /** The successor `next` of a node, at the end of `d`, takes its place. */
    method SpliceIn(node: TreeNode, next: TreeNode, ghost s: set<TreeNode>, ghost p: Path, ghost t: Shape, ghost d: Path, ghost below: Shape)
      returns (x: TreeNode?, parent: TreeNode, red: bool)
      requires At(s, p, t) && Succeeded(t, d, below) && t.n == node && below.n == next
      modifies this`root, s
      ensures At(s - {node}, SplicedPath(p, t, d, below), below.right)
      ensures x == Root(below.right) && parent == Last(SplicedPath(p, t, d, below)) && red == below.red
    {
      assert Cells(s)[node] == node.Fields();
      var left, right, up, isRed := node.left, node.right, node.parent, node.red;
      Vacate(node, next, s, p, t);
      ghost var m1 := Cells(s);
      x, parent, red := TakePlaceIn(node, next, left, right, up, isRed, s, p, t, d, below);
      SpliceHolds(m1, Cells(s - {node}), root, p, t, d, below);
    }

    /** Removal of a node with two children: its successor takes its place. */
    method SpliceTwo(node: TreeNode, ghost s: set<TreeNode>, ghost p: Path, ghost t: Shape)
      returns (x: TreeNode?, parent: TreeNode, red: bool, ghost q: Path, ghost u: Shape)
      requires At(s, p, t) && Fits(p, t) && t.Node? && t.n == node && t.left.Node? && t.right.Node?
      modifies this`root, s
      ensures At(s - {node}, q, u) && x == Root(u) && parent == Last(q)
      ensures Lacking(q, u, red) && Whole(q, u) == Without(p, t)
    {
      var next;
      ghost var d, below;
      next, d, below := Successor(node, s, p, t);
      x, parent, red := SpliceIn(node, next, s, p, t, d, below);
      SplicedLacks(p, t, d, below);
      SplicedWhole(p, t, d, below);
      q, u := SplicedPath(p, t, d, below), below.right;
    }

    method SetParent(x: TreeNode?, parent: TreeNode?, ghost s: set<TreeNode>)
      requires x != null ==> x in s
      modifies x
      ensures forall n | n in s :: Cells(s)[n] == if n == x then old(Cells(s))[n].(parent := parent) else old(Cells(s))[n]
    {
      if x != null {
        x.parent := parent;
      }
    }

    /** Removal of a node with at most one child, which takes its place. */
    method SpliceOne(node: TreeNode, x: TreeNode?, ghost s: set<TreeNode>, ghost p: Path, ghost t: Shape, ghost u: Shape)
      requires At(s, p, t) && t.Node? && t.n == node && x == Root(u)
      requires (t.left.Leaf? && u == t.right) || (t.right.Leaf? && u == t.left)
      modifies this`root, s
      ensures At(s - {node}, p, u)
    {
      ghost var m := Cells(s);
      assert m[node] == node.Fields();
      var parent := node.parent;
      Vacate(node, x, s, p, t);
      ghost var m1 := Cells(s);
      assert x != null ==> x in Nodes(u);
      SetParent(x, parent, s);
      LiftedHolds(m, m1, Cells(s - {node}), root, p, t, u);
    }

    /** The first half of a removal. `x` is the child that moved up, `red` the colour that went away. */
    method Unlink(node: TreeNode, ghost s: set<TreeNode>, ghost p: Path, ghost t: Shape)
      returns (x: TreeNode?, parent: TreeNode?, red: bool, ghost q: Path, ghost u: Shape)
      requires At(s, p, t) && Fits(p, t) && t.Node? && t.n == node
      modifies this`root, s
      ensures At(s - {node}, q, u) && x == Root(u) && parent == Last(q)
      ensures Lacking(q, u, red) && Whole(q, u) == Without(p, t)
    {
      assert Cells(s)[node] == node.Fields();
      if node.left != null && node.right != null {
        x, parent, red, q, u := SpliceTwo(node, s, p, t);
      } else {
        x := if node.left == null then node.right else node.left;
        parent, red, q := node.parent, node.red, p;
        u := if t.left.Leaf? then t.right else t.left;
        OnlyChild(p, t, u);
        SpliceOne(node, x, s, p, t, u);
      }
    }

    /** The links that a round of the rebalancing after a removal reads. */
    lemma Kin(s: set<TreeNode>, p: Path, t: Shape)
      requires At(s, p, t) && p.In? && p.other.Node?
      ensures p.n.Child(p.s) == Root(t) && p.n.Child(p.s.Flip()) == p.other.n && p.n.parent == Last(p.up)
      ensures p.other.n.red == p.other.red && p.n.red == p.red
      ensures p.other.n.left == Root(p.other.left) && p.other.n.right == Root(p.other.right)
      ensures p.other.left.Node? ==> p.other.left.n.red == p.other.left.red
      ensures p.other.right.Node? ==> p.other.right.n.red == p.other.right.red
    {
      var m, o := Cells(s), p.other;
      assert Linked(m, o, p.n) && Linked(m, o.left, o.n) && Linked(m, o.right, o.n);
      assert m[p.n] == p.n.Fields() && m[o.n] == o.n.Fields();
      assert o.left.Node? ==> m[o.left.n] == o.left.n.Fields();
      assert o.right.Node? ==> m[o.right.n] == o.right.n.Fields();
      assert forall d :: p.n.Fields().Child(d) == p.n.Child(d);
    }

    method TurnSibling(cis: Side, parent: TreeNode, sibling: TreeNode, ghost s: set<TreeNode>, ghost p: Path, ghost t: Shape)
      requires At(s, p, t) && p.In? && p.other.Node? && p.s == cis && p.n == parent && p.other.n == sibling
      modifies this`root, s
      ensures At(s, SiblingTurned(p), t)
    {
      ghost var beside := In(p.up, cis.Flip(), p.n, p.key, p.red, t);
      Refocus(s, p, t, beside, p.other);
      Paint(sibling, false, s, beside, p.other);
      ghost var above := Build(cis, p.n, p.key, p.red, t, p.other.(red := false));
      Refocus(s, beside, p.other.(red := false), p.up, above);
      Paint(parent, true, s, p.up, above);
      Rotate(cis, parent, s, p.up, above.(red := true));
      Refocus(s, p.up, Rotated(cis, above.(red := true)), SiblingTurned(p), t);
    }

    method RedFarNephew(cis: Side, parent: TreeNode, sibling: TreeNode, ghost s: set<TreeNode>, ghost p: Path, ghost t: Shape)
      returns (far: TreeNode)
      requires At(s, p, t) && p.In? && p.other.Node? && p.s == cis && p.n == parent && p.other.n == sibling
      requires !p.other.Kid(cis.Flip()).Black() || !p.other.Kid(cis).Black()
      modifies this`root, s
      ensures At(s, p.(other := FarRed(cis, p.other)), t)
      ensures far == Root(FarRed(cis, p.other))
    {
      var trans := cis.Flip();
      Kin(s, p, t);
      far := sibling;
      ghost var sib := p.other;
      if sibling.Child(trans) == null || !sibling.Child(trans).red {
        ghost var beside := In(p.up, trans, p.n, p.key, p.red, t);
        ghost var below := In(beside, cis, sib.n, sib.key, sib.red, sib.Kid(trans));
        Refocus(s, p, t, below, sib.Kid(cis));
        Paint(sibling.Child(cis), false, s, below, sib.Kid(cis));
        ghost var near := sib.Kid(cis).(red := false);
        ghost var sib1 := Build(cis, sib.n, sib.key, sib.red, near, sib.Kid(trans));
        Refocus(s, below, near, beside, sib1);
        Paint(sibling, true, s, beside, sib1);
        Rotate(trans, sibling, s, beside, sib1.(red := true));
        Refocus(s, beside, FarRed(cis, sib), p.(other := FarRed(cis, sib)), t);
        Kin(s, p.(other := FarRed(cis, sib)), t);
        far := parent.Child(trans);
      }
    }

    method TurnNephew(cis: Side, parent: TreeNode, sibling: TreeNode, ghost s: set<TreeNode>, ghost p: Path, ghost t: Shape)
      requires At(s, p, t) && p.In? && p.other.Node? && p.s == cis && p.n == parent && p.other.n == sibling
      requires !p.other.Kid(cis.Flip()).Black()
      modifies this`root, s
      ensures At(s, p.up, NephewTurned(p, t))
    {
      var trans := cis.Flip();
      Kin(s, p, t);
      ghost var sib := p.other;
      ghost var beside := In(p.up, trans, p.n, p.key, p.red, t);
      Refocus(s, p, t, beside, sib);
      Paint(sibling, parent.red, s, beside, sib);
      ghost var sib1 := sib.(red := p.red);
      ghost var below := In(beside, trans, sib1.n, sib1.key, sib1.red, sib1.Kid(cis));
      Refocus(s, beside, sib1, below, sib1.Kid(trans));
      Paint(sibling.Child(trans), false, s, below, sib1.Kid(trans));
      ghost var far := sib1.Kid(trans).(red := false);
      ghost var sib2 := Build(cis, sib1.n, sib1.key, sib1.red, sib1.Kid(cis), far);
      ghost var above := Build(cis, p.n, p.key, p.red, t, sib2);
      Refocus(s, below, far, p.up, above);
      Paint(parent, false, s, p.up, above);
      Rotate(cis, parent, s, p.up, above.(red := false));
    }

    method PaintSibling(cis: Side, parent: TreeNode, sibling: TreeNode, ghost s: set<TreeNode>, ghost p: Path, ghost t: Shape)
      requires At(s, p, t) && p.In? && p.other.Node? && p.s == cis && p.n == parent && p.other.n == sibling
      modifies s
      ensures At(s, p.up, SiblingReddened(p, t))
    {
      ghost var beside := In(p.up, cis.Flip(), p.n, p.key, p.red, t);
      Refocus(s, p, t, beside, p.other);
      Paint(sibling, true, s, beside, p.other);
      Refocus(s, beside, p.other.(red := true), p.up, SiblingReddened(p, t));
    }

    /** A red sibling is turned into a black one first. */
    method BlackSibling(cis: Side, parent: TreeNode, ghost s: set<TreeNode>, ghost p: Path, ghost t: Shape)
      returns (sibling: TreeNode, ghost q: Path)
      requires At(s, p, t) && Lacking(p, t, false) && t.Black() && p.In? && p.s == cis && p.n == parent
      modifies this`root, s
      ensures At(s, q, t) && Lacking(q, t, false) && Whole(q, t) == Whole(p, t)
      ensures q.In? && q.s == cis && q.n == parent && q.other.Node? && q.other.n == sibling && !q.other.red
      ensures q == p || (q.red && Depth(q) == Depth(p) + 1)
    {
      HasSibling(p, t);
      Kin(s, p, t);
      q := p;
      sibling := parent.Child(cis.Flip());
      if sibling.red {
        SiblingTurnedLacks(p, t);
        TurnSibling(cis, parent, sibling, s, p, t);
        q := SiblingTurned(p);
        Kin(s, q, t);
        sibling := parent.Child(cis.Flip());
      }
    }

    lemma Settled(s: set<TreeNode>, p: Path, t: Shape, u: Shape)
      requires At(s, p, t) && Fits(p, t) && t.Node? && u == Fill(p, t)
      ensures At(s, Top, u) && Fits(Top, u) && u.Node? && root == u.n && Whole(Top, u) == Whole(p, t)
    {
      Refocus(s, p, t, Top, u);
      FitsFill(p, t);
      FitsTop(u);
      FillContents(p, t);
      assert t.n in Nodes(u);
    }

    /** One round of the rebalancing after a removal: one black node is missing on the way to `t`. */
    method RebalanceAfterRemove(cis: Side, upper: TreeNode, ghost s: set<TreeNode>, ghost p: Path, ghost t: Shape)
      returns (done: bool, node: TreeNode, parent: TreeNode?, ghost q: Path, ghost u: Shape)
      requires At(s, p, t) && Lacking(p, t, false) && t.Black() && p.In? && p.s == cis && p.n == upper
      modifies this`root, s
      ensures At(s, q, u) && u.Node? && u.n == node && Whole(q, u) == Whole(p, t)
      ensures parent == Last(q) && (done ==> Fits(q, u) && q.Top?)
      ensures !done ==> if u.red then Fits(q, Blackened(u)) else Lacking(q, u, false) && Depth(q) < Depth(p)
    {
      var sibling;
      sibling, q := BlackSibling(cis, upper, s, p, t);
      Kin(s, q, t);
      if (sibling.left != null && sibling.left.red) || (sibling.right != null && sibling.right.red) {
        u := SettleNephew(cis, upper, sibling, s, q, t);
        done, q := true, Top;
        node, parent := root, null;
      } else {
        done := false;
        SiblingReddenedLacks(q, t);
        PaintSibling(cis, upper, sibling, s, q, t);
        node, parent := upper, upper.parent;
        u := SiblingReddened(q, t);
        assert Cells(s)[upper] == upper.Fields();
        q := q.up;
      }
    }

    /** A red child of the sibling makes up for the missing black node. */
    method SettleNephew(cis: Side, upper: TreeNode, black: TreeNode, ghost s: set<TreeNode>, ghost q: Path, ghost t: Shape)
      returns (ghost u: Shape)
      requires At(s, q, t) && Lacking(q, t, false) && q.In? && q.s == cis && q.n == upper
      requires q.other.Node? && q.other.n == black && !q.other.red
      requires !q.other.Kid(cis.Flip()).Black() || !q.other.Kid(cis).Black()
      modifies this`root, s
      ensures At(s, Top, u) && Fits(Top, u) && u.Node? && root == u.n && Whole(Top, u) == Whole(q, t)
    {
      NephewTurnedFits(q, t);
      NephewTurnedWhole(q, t);
      FarRedKeeps(cis, q.other);
      var sibling := RedFarNephew(cis, upper, black, s, q, t);
      TurnNephew(cis, upper, sibling, s, q.(other := FarRed(cis, q.other)), t);
      u := Fill(q.up, NephewTurned(q, t));
      Settled(s, q.up, NephewTurned(q, t), u);
    }

    /** The rebalancing after a removal that left one black node missing on the way to `x`. */
    method RebalanceRemoved(x: TreeNode?, upper: TreeNode?, ghost s: set<TreeNode>, ghost at: Path, ghost moved: Shape)
      returns (ghost whole: Shape)
      requires At(s, at, moved) && Lacking(at, moved, false) && moved.Black() && x == Root(moved) && upper == Last(at)
      modifies this`root, s
      ensures At(s, Top, whole) && RedBlack(whole) && Inorder(whole) == Whole(at, moved)
    {
      var node, parent := x, upper;
      ghost var p, t := at, moved;
      while true
        invariant At(s, p, t) && Lacking(p, t, false) && t.Black() && node == Root(t) && parent == Last(p)
        invariant Whole(p, t) == Whole(at, moved)
        decreases Depth(p)
      {
        AtRoot(s, p, t);
        if node == root {
          assert Fits(p, Blackened(t));
          break;
        }
        HasSibling(p, t);
        Kin(s, p, t);
        var cis := if node == parent.left then Left else Right;
        var done;
        done, node, parent, p, t := RebalanceAfterRemove(cis, parent, s, p, t);
        assert Cells(s)[node] == node.Fields();
        if done || node.red {
          assert Fits(p, Blackened(t));
          break;
        }
      }
      whole := BlackenNode(node, s, p, t);
    }

    /** The last step of a removal. */
    method BlackenNode(node: TreeNode?, ghost s: set<TreeNode>, ghost p: Path, ghost t: Shape) returns (ghost whole: Shape)
      requires At(s, p, t) && node == Root(t) && Fits(p, Blackened(t))
      modifies s
      ensures At(s, Top, whole) && RedBlack(whole) && Inorder(whole) == Whole(p, t)
    {
      if node != null {
        Paint(node, false, s, p, t);
      }
      whole := Fill(p, Blackened(t));
      Refocus(s, p, Blackened(t), Top, whole);
      FitsFill(p, Blackened(t));
      FillContents(p, Blackened(t));
      WholeByOrder(p, t, Blackened(t));
    }

    lemma AtRoot(s: set<TreeNode>, p: Path, t: Shape)
      requires At(s, p, t)
      ensures Root(t) == root <==> p.Top?
    {
      if p.In? { TopOfIn(p, Root(t)); }
    }

    method Del(node: TreeNode)
      requires Valid() && node in Nodes(shape)
      modifies this, Nodes(shape)
      ensures Valid()
      ensures Contents(shape) == old(Contents(shape)) - {Entry(old(node.key), node)}
      ensures Nodes(shape) == old(Nodes(shape)) - {node}
    {
      ghost var s := Nodes(shape);
      ghost var p, t := Locate(node);
      var x, parent, red;
      ghost var q, u;
      x, parent, red, q, u := Unlink(node, s, p, t);
      ghost var whole := Restore(x, parent, red, s - {node}, q, u);
      Adopt(s - {node}, whole);
    }

    ghost method Adopt(s: set<TreeNode>, whole: Shape)
      requires At(s, Top, whole) && RedBlack(whole) && Sorted(Inorder(whole))
      modifies this`shape
      ensures Valid() && shape == whole && Nodes(shape) == s
    {
      assert Nodes(whole) == s;
      shape := whole;
      assert Linked(Cells(s), shape, null);
    }

    /** The place of a node of the tree. */
    lemma Locate(node: TreeNode) returns (p: Path, t: Shape)
      requires Valid() && node in Nodes(shape)
      ensures At(Nodes(shape), p, t) && Fits(p, t) && t.Node? && t.n == node
      ensures Sorted(Without(p, t)) && Entries(Without(p, t)) == Contents(shape) - {Entry(node.key, node)}
    {
      p, t := PathTo(shape, Top, node);
      Refocus(Nodes(shape), Top, shape, p, t);
      FitsFill(p, t);
      FillContents(p, t);
      WithoutRoot(p, t);
      assert Cells(Nodes(shape))[node] == node.Fields();
    }

    /** The second half of a removal: the colours are put right. */
    method Restore(x: TreeNode?, parent: TreeNode?, red: bool, ghost s: set<TreeNode>, ghost p: Path, ghost t: Shape)
      returns (ghost whole: Shape)
      requires At(s, p, t) && Lacking(p, t, red) && x == Root(t) && parent == Last(p)
      modifies this`root, s
      ensures At(s, Top, whole) && RedBlack(whole) && Inorder(whole) == Whole(p, t)
    {
      if red {
        whole := Fill(p, t);
        FitsFill(p, t);
        Refocus(s, p, t, Top, whole);
        FillContents(p, t);
        return;
      }
      assert x != null ==> Cells(s)[x] == x.Fields();
      if x != null && x.red {
        whole := BlackenNode(x, s, p, t);
        return;
      }
      whole := RebalanceRemoved(x, parent, s, p, t);
    }

    method Find(key: nat) returns (node: TreeNode?)
      requires Valid()
      ensures node != null ==> Entry(key, node) in Contents(shape)
      ensures node == null ==> forall e | e in Contents(shape) :: e.key != key
    {
      node := root;
      ghost var s, p, t := Nodes(shape), Top, shape;
      while node != null
        invariant Valid() && At(s, p, t) && node == Root(t)
        invariant Fits(p, t) && Whole(p, t) == Inorder(shape) && Between(p, key)
        decreases t
      {
        assert Cells(s)[node] == node.Fields();
        if key == node.key {
          assert Entry(key, node) in Whole(p, t);
          return;
        }
        var d := if key < node.key then Left else Right;
        StepDown(p, t, d, key);
        ghost var q := In(p, d, t.n, t.key, t.red, t.Kid(d.Flip()));
        Refocus(s, p, t, q, t.Kid(d));
        assert node.Fields().Child(d) == node.Child(d);
        node := node.Child(d);
        p, t := q, t.Kid(d);
      }
      AbsentKey(p, key);
    }
  }
}
