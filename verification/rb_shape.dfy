/** The shapes that wepoll's red-black tree goes through, as values.

    `Shape` is the tree that a group of linked nodes forms; `Path` is what surrounds a
    subtree: the way from a hole up to the root, with the subtrees that hang off it. Both
    insertion and removal work at one place of the tree, so their loop invariants speak of
    a path and of the subtree in its hole. `Side` plays the role of the `cis` and `trans`
    parameters of the rebalancing macros. */
module RbShape {

  datatype Side = Left | Right {
    function Flip(): Side {
      if this == Left then Right else Left
    }
  }

  class TreeNode {
    var left: TreeNode?
    var right: TreeNode?
    var parent: TreeNode?
    var key: nat
    var red: bool

    /** A zero-filled node. */
    constructor ()
      ensures left == null && right == null && parent == null && key == 0 && !red
    {
      left, right, parent, key, red := null, null, null, 0, false;
    }

    ghost function Fields(): Cell
      reads this
    {
      Cell(left, right, parent, key, red)
    }

    function Child(s: Side): TreeNode?
      reads this
    {
      if s == Left then left else right
    }

    method SetChild(s: Side, c: TreeNode?)
      modifies this`left, this`right
      ensures Child(s) == c && Child(s.Flip()) == old(Child(s.Flip()))
    {
      if s == Left { left := c; } else { right := c; }
    }
  }

  /** The fields of a node. */
  datatype Cell = Cell(left: TreeNode?, right: TreeNode?, parent: TreeNode?, key: nat, red: bool) {
    ghost function Child(s: Side): TreeNode? {
      if s == Left then left else right
    }

    ghost function With(s: Side, c: TreeNode?): Cell {
      if s == Left then this.(left := c) else this.(right := c)
    }
  }

  datatype Entry = Entry(key: nat, node: TreeNode)

  datatype Shape = Leaf | Node(n: TreeNode, key: nat, red: bool, left: Shape, right: Shape) {
    ghost predicate Black() {
      Leaf? || !red
    }

    ghost function Kid(s: Side): Shape
      requires Node?
    {
      if s == Left then left else right
    }
  }

  /** The node `n` with `near` on side `s` and `far` on the other side. */
  ghost function Build(s: Side, n: TreeNode, key: nat, red: bool, near: Shape, far: Shape): Shape {
    if s == Left then Node(n, key, red, near, far) else Node(n, key, red, far, near)
  }

  ghost function Root(t: Shape): TreeNode? {
    if t.Leaf? then null else t.n
  }

  ghost function Nodes(t: Shape): set<TreeNode> {
    if t.Leaf? then {} else {t.n} + Nodes(t.left) + Nodes(t.right)
  }

  ghost function Inorder(t: Shape): seq<Entry> {
    if t.Leaf? then [] else Inorder(t.left) + [Entry(t.key, t.n)] + Inorder(t.right)
  }

  ghost function Entries(s: seq<Entry>): set<Entry> {
    set e | e in s
  }

  ghost function Contents(t: Shape): set<Entry> {
    Entries(Inorder(t))
  }

  ghost predicate Sorted(s: seq<Entry>) {
    forall i, j :: 0 <= i < j < |s| ==> s[i].key < s[j].key
  }

  /** No node occurs twice. */
  ghost predicate Tidy(t: Shape) {
    t.Node? ==>
      && t.n !in Nodes(t.left) && t.n !in Nodes(t.right) && Nodes(t.left) !! Nodes(t.right)
      && Tidy(t.left) && Tidy(t.right)
  }

  /** The number of black nodes on the way to the leftmost leaf. */
  ghost function BlackHeight(t: Shape): nat {
    if t.Leaf? then 0 else BlackHeight(t.left) + if t.red then 0 else 1
  }

  /** Every way to a leaf meets the same number of black nodes. */
  ghost predicate Balanced(t: Shape) {
    t.Node? ==> Balanced(t.left) && Balanced(t.right) && BlackHeight(t.left) == BlackHeight(t.right)
  }

  /** No red node has a red child. */
  ghost predicate NoRedRed(t: Shape) {
    t.Node? ==> NoRedRed(t.left) && NoRedRed(t.right) && (t.red ==> t.left.Black() && t.right.Black())
  }

  ghost predicate RedBlack(t: Shape) {
    t.Black() && Balanced(t) && NoRedRed(t)
  }

  // ---------- the nodes in memory ----------

  type Memory = map<TreeNode, Cell>

  ghost function Cells(s: set<TreeNode>): Memory
    reads s
  {
    map n | n in s :: n.Fields()
  }

  /** `m` holds the nodes of `t`, linked as `t` says, under the parent `p`. */
  ghost predicate Linked(m: Memory, t: Shape, p: TreeNode?) {
    t.Node? ==>
      && t.n in m && m[t.n] == Cell(Root(t.left), Root(t.right), p, t.key, t.red)
      && Linked(m, t.left, t.n) && Linked(m, t.right, t.n)
  }

  // ---------- paths ----------

  /** `In(up, s, n, key, red, other)`: the hole is the child on side `s` of `n`, whose other
      child is `other`; `n` itself fills the hole of `up`. */
  datatype Path = Top | In(up: Path, s: Side, n: TreeNode, key: nat, red: bool, other: Shape)

  ghost function Last(p: Path): TreeNode? {
    if p.Top? then null else p.n
  }

  /** The parent of the hole of a path whose topmost node has the parent `above`. */
  ghost function LastOr(p: Path, above: TreeNode?): TreeNode? {
    if p.Top? then above else p.n
  }

  ghost predicate LastRed(p: Path) {
    p.In? && p.red
  }

  ghost function Fill(p: Path, t: Shape): Shape {
    if p.Top? then t else Fill(p.up, Build(p.s, p.n, p.key, p.red, t, p.other))
  }

  ghost function PathNodes(p: Path): set<TreeNode> {
    if p.Top? then {} else {p.n} + Nodes(p.other) + PathNodes(p.up)
  }

  ghost function Before(p: Path): seq<Entry> {
    if p.Top? then [] else
    if p.s == Left then Before(p.up) else Before(p.up) + Inorder(p.other) + [Entry(p.key, p.n)]
  }

  ghost function After(p: Path): seq<Entry> {
    if p.Top? then [] else
    if p.s == Left then [Entry(p.key, p.n)] + Inorder(p.other) + After(p.up) else After(p.up)
  }

  ghost predicate PathTidy(p: Path) {
    p.In? ==>
      && p.n !in Nodes(p.other) && p.n !in PathNodes(p.up) && Nodes(p.other) !! PathNodes(p.up)
      && Tidy(p.other) && PathTidy(p.up)
  }

  /** A subtree of black height `h` in the hole makes the whole tree balanced. */
  ghost predicate PathBalanced(p: Path, h: nat) {
    p.In? ==> Balanced(p.other) && BlackHeight(p.other) == h && PathBalanced(p.up, h + if p.red then 0 else 1)
  }

  ghost predicate PathNoRedRed(p: Path) {
    p.In? ==> NoRedRed(p.other) && PathNoRedRed(p.up) && (p.red ==> p.other.Black() && !LastRed(p.up))
  }

  /** The root of the whole tree is black, when the hole is not the root. */
  ghost predicate PathTopBlack(p: Path) {
    p.In? ==> if p.up.Top? then !p.red else PathTopBlack(p.up)
  }

  /** Like `Linked`, for the nodes around a hole that holds the node `c`; the topmost node
      of the path has the parent `above`. */
  ghost predicate PathLinked(m: Memory, p: Path, above: TreeNode?, c: TreeNode?) {
    p.In? ==>
      && p.n in m && m[p.n].Child(p.s) == c && m[p.n].Child(p.s.Flip()) == Root(p.other)
      && m[p.n].key == p.key && m[p.n].red == p.red
      && m[p.n].parent == (if p.up.Top? then above else p.up.n)
      && Linked(m, p.other, p.n) && PathLinked(m, p.up, above, p.n)
  }

  /** The root of the tree whose hole holds the node `c`. */
  ghost function TopOf(p: Path, c: TreeNode?): TreeNode? {
    if p.Top? then c else TopOf(p.up, p.n)
  }

  /** `p` hanging in the hole of `base`. */
  ghost function Compose(p: Path, base: Path): Path {
    if p.Top? then base else p.(up := Compose(p.up, base))
  }

  // ---------- what a change elsewhere leaves alone ----------

  /** A subtree whose root alone was rehung, or that was not touched at all. */
  lemma {:induction false} Rehung(m: Memory, m2: Memory, t: Shape, p: TreeNode?, q: TreeNode?)
    requires Linked(m, t, p) && Tidy(t)
    requires t.Node? ==> t.n in m2 && m2[t.n] == m[t.n].(parent := q)
    requires forall n | n in Nodes(t) && n != Root(t) && n in m :: n in m2 && m2[n] == m[n]
    ensures Linked(m2, t, q)
  {
    if t.Node? {
      Rehung(m, m2, t.left, t.n, t.n);
      Rehung(m, m2, t.right, t.n, t.n);
    }
  }

  lemma {:induction false} PathUntouched(m: Memory, m2: Memory, p: Path, above: TreeNode?, c: TreeNode?)
    requires PathLinked(m, p, above, c) && PathTidy(p)
    requires forall n | n in PathNodes(p) && n in m :: n in m2 && m2[n] == m[n]
    ensures PathLinked(m2, p, above, c)
  {
    if p.In? {
      Rehung(m, m2, p.other, p.n, p.n);
      PathUntouched(m, m2, p.up, above, p.n);
    }
  }

  /** The node above the hole takes another child. */
  lemma Hung(m: Memory, m2: Memory, p: Path, above: TreeNode?, c: TreeNode?, c2: TreeNode?)
    requires p.In? && PathLinked(m, p, above, c) && PathTidy(p)
    requires p.n in m2 && m2[p.n] == m[p.n].With(p.s, c2)
    requires forall n | n in PathNodes(p) && n != p.n && n in m :: n in m2 && m2[n] == m[n]
    ensures PathLinked(m2, p, above, c2)
  {
    Rehung(m, m2, p.other, p.n, p.n);
    PathUntouched(m, m2, p.up, above, p.n);
  }

  ghost function TopNode(p: Path): (n: TreeNode)
    requires p.In?
    ensures n in PathNodes(p)
    ensures p.up.In? ==> n in PathNodes(p.up)
  {
    if p.up.Top? then p.n else TopNode(p.up)
  }

  /** A path that got another parent at its upper end and another child at its lower end. */
  lemma {:induction false} PathMoved(m: Memory, m2: Memory, p: Path, above: TreeNode?, c: TreeNode?, above2: TreeNode?, c2: TreeNode?)
    requires p.In? && PathLinked(m, p, above, c) && PathTidy(p)
    requires forall n | n in PathNodes(p) && n in m :: n in m2
    requires forall n | n in PathNodes(p) && n in m && n != p.n && n != TopNode(p) :: m2[n] == m[n]
    requires TopNode(p) in m && TopNode(p) in m2 && p.n in m
    requires p.n == TopNode(p) ==> m2[p.n] == m[p.n].With(p.s, c2).(parent := above2)
    requires p.n != TopNode(p) ==> m2[p.n] == m[p.n].With(p.s, c2) && m2[TopNode(p)] == m[TopNode(p)].(parent := above2)
    ensures PathLinked(m2, p, above2, c2)
  {
    Rehung(m, m2, p.other, p.n, p.n);
    if p.up.In? {
      PathMoved(m, m2, p.up, above, p.n, above2, p.n);
    }
  }

  // ---------- filling a hole ----------

  lemma {:induction false} FillOrder(p: Path, t: Shape)
    ensures Inorder(Fill(p, t)) == Whole(p, t)
  {
    if p.In? {
      WholeUp(p, t);
      FillOrder(p.up, Build(p.s, p.n, p.key, p.red, t, p.other));
    }
  }

  lemma {:induction false} FillNodes(p: Path, t: Shape)
    ensures Nodes(Fill(p, t)) == PathNodes(p) + Nodes(t)
  {
    if p.In? {
      FillNodes(p.up, Build(p.s, p.n, p.key, p.red, t, p.other));
    }
  }

  lemma FillContents(p: Path, t: Shape)
    ensures Inorder(Fill(p, t)) == Whole(p, t)
    ensures Nodes(Fill(p, t)) == PathNodes(p) + Nodes(t)
  {
    FillOrder(p, t);
    FillNodes(p, t);
  }

  lemma {:induction false} FillTidy(p: Path, t: Shape)
    ensures Tidy(Fill(p, t)) <==> PathTidy(p) && Tidy(t) && Nodes(t) !! PathNodes(p)
  {
    if p.In? {
      FillTidy(p.up, Build(p.s, p.n, p.key, p.red, t, p.other));
    }
  }

  lemma {:induction false} FillBalanced(p: Path, t: Shape)
    ensures Balanced(Fill(p, t)) <==> PathBalanced(p, BlackHeight(t)) && Balanced(t)
  {
    if p.In? {
      FillBalanced(p.up, Build(p.s, p.n, p.key, p.red, t, p.other));
    }
  }

  lemma {:induction false} FillNoRedRed(p: Path, t: Shape)
    ensures NoRedRed(Fill(p, t)) <==> PathNoRedRed(p) && NoRedRed(t) && (LastRed(p) ==> t.Black())
  {
    if p.In? {
      FillNoRedRed(p.up, Build(p.s, p.n, p.key, p.red, t, p.other));
    }
  }

  lemma {:induction false} FillBlack(p: Path, t: Shape)
    ensures Fill(p, t).Black() <==> if p.Top? then t.Black() else PathTopBlack(p)
  {
    if p.In? {
      FillBlack(p.up, Build(p.s, p.n, p.key, p.red, t, p.other));
    }
  }

  lemma {:induction false} FillLinked(m: Memory, p: Path, t: Shape, above: TreeNode?)
    ensures Linked(m, Fill(p, t), above) <==> PathLinked(m, p, above, Root(t)) && Linked(m, t, LastOr(p, above))
    ensures Root(Fill(p, t)) == TopOf(p, Root(t))
  {
    if p.In? {
      FillLinked(m, p.up, Build(p.s, p.n, p.key, p.red, t, p.other), above);
    }
  }

  lemma {:induction false} FillCompose(p: Path, base: Path, t: Shape)
    ensures Fill(Compose(p, base), t) == Fill(base, Fill(p, t))
  {
    if p.In? {
      FillCompose(p.up, base, Build(p.s, p.n, p.key, p.red, t, p.other));
    }
  }

  /** Which node holds an entry is nothing to the colours and heights. */
  lemma {:induction false} ComposeColours(p: Path, a: Path, b: Path, h: nat)
    requires a.In? && b.In? && a.up == b.up && a.red == b.red && a.other == b.other
    ensures PathBalanced(Compose(p, a), h) <==> PathBalanced(Compose(p, b), h)
    ensures PathNoRedRed(Compose(p, a)) <==> PathNoRedRed(Compose(p, b))
    ensures PathTopBlack(Compose(p, a)) <==> PathTopBlack(Compose(p, b))
    ensures LastRed(Compose(p, a)) <==> LastRed(Compose(p, b))
  {
    if p.In? {
      ComposeColours(p.up, a, b, h + if p.red then 0 else 1);
    }
  }

  /** The way to a node of the tree: the path to it and the subtree it is the root of. */
  lemma {:induction false} PathTo(t: Shape, p: Path, n: TreeNode) returns (q: Path, u: Shape)
    requires n in Nodes(t)
    ensures u.Node? && u.n == n && Fill(q, u) == Fill(p, t)
  {
    if t.n == n {
      return p, t;
    } else if n in Nodes(t.left) {
      q, u := PathTo(t.left, In(p, Left, t.n, t.key, t.red, t.right), n);
    } else {
      q, u := PathTo(t.right, In(p, Right, t.n, t.key, t.red, t.left), n);
    }
  }

  ghost function Depth(p: Path): nat {
    if p.Top? then 0 else 1 + Depth(p.up)
  }

  ghost function Whole(p: Path, t: Shape): seq<Entry> {
    Before(p) + Inorder(t) + After(p)
  }

  lemma WholeUp(p: Path, t: Shape)
    requires p.In?
    ensures Whole(p, t) == Whole(p.up, Build(p.s, p.n, p.key, p.red, t, p.other))
  {
  }

  /** Colours have no part in the order of the entries. */
  lemma WholeByOrder(p: Path, t: Shape, u: Shape)
    requires Inorder(t) == Inorder(u)
    ensures Whole(p, t) == Whole(p, u)
  {
  }

  // ---------- sorted sequences ----------

  ghost predicate Precedes(a: seq<Entry>, b: seq<Entry>) {
    forall x, y | x in a && y in b :: x.key < y.key
  }

  lemma SortedConcat(a: seq<Entry>, b: seq<Entry>)
    ensures Sorted(a + b) <==> Sorted(a) && Sorted(b) && Precedes(a, b)
    ensures Entries(a + b) == Entries(a) + Entries(b)
  {
    var s := a + b;
    if Sorted(s) {
      assert forall i | 0 <= i < |a| :: a[i] == s[i];
      assert forall i | 0 <= i < |b| :: b[i] == s[|a| + i];
    }
  }

  lemma SortedParts(a: seq<Entry>, e: Entry, b: seq<Entry>)
    ensures Sorted(a + [e] + b) <==>
      Sorted(a + b) && (forall x | x in a :: x.key < e.key) && (forall x | x in b :: e.key < x.key)
    ensures Entries(a + [e] + b) == Entries(a + b) + {e}
    ensures Sorted(a + [e] + b) ==> e !in Entries(a + b)
  {
    SortedConcat(a + [e], b);
    SortedConcat(a, [e]);
    SortedConcat(a, b);
    assert e in [e];
    assert Precedes(a + [e], b) <==> Precedes(a, b) && Precedes([e], b);
  }

  // ---------- a tree in memory ----------

  /** The nodes in `m`, below `root`, form `t` in the hole of `p`. */
  ghost predicate Holds(m: Memory, root: TreeNode?, p: Path, t: Shape) {
    && m.Keys == PathNodes(p) + Nodes(t)
    && PathTidy(p) && Tidy(t) && Nodes(t) !! PathNodes(p)
    && root == TopOf(p, Root(t)) && PathLinked(m, p, null, Root(t)) && Linked(m, t, Last(p))
  }

  lemma HoldsFill(m: Memory, root: TreeNode?, p: Path, t: Shape)
    ensures Holds(m, root, p, t) <==> Holds(m, root, Top, Fill(p, t))
  {
    FillLinked(m, p, t, null);
    FillTidy(p, t);
    FillContents(p, t);
  }
}
