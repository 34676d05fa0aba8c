/** The mutable red-black tree of lab 06: linked nodes restructured in place, computing the value model's functions. */
module RedBlackObject {
  import opened Options
  import Spec = RedBlackModel
  import opened RedBlackModel

  class TreeNode<V> {
    const key: int
    var value: V
    var color: Color
    var left: TreeNode?<V>
    var right: TreeNode?<V>
    /** This node and all nodes below it. */
    ghost var repr: set<object>

    /** A proper tree: no node is shared, and none is below itself. */
    ghost predicate Proper()
      reads this, repr
      decreases repr
    {
      && this in repr
      && (left != null ==> left in repr && left.repr < repr && this !in left.repr && left.Proper())
      && (right != null ==> right in repr && right.repr < repr && this !in right.repr && right.Proper())
      && (left != null && right != null ==> left.repr !! right.repr)
      && repr == {this} + (if left == null then {} else left.repr) + (if right == null then {} else right.repr)
    }

    ghost function Shape(): (t: Tree<V>)
      requires Proper()
      reads this, repr
      ensures t.Node? && (t.left.Node? <==> left != null) && (t.right.Node? <==> right != null)
      decreases repr
    {
      Node(if left == null then Leaf else left.Shape(), key, value, color, if right == null then Leaf else right.Shape())
    }

    constructor (key: int, value: V)
      ensures Proper() && repr == {this} && Shape() == Node(Leaf, key, value, Red, Leaf)
    {
      this.key := key;
      this.value := value;
      color, left, right := Red, null, null;
      repr := {this};
    }
  }

  ghost function ReprOf<V>(node: TreeNode?<V>): set<object>
    reads node
  {
    if node == null then {} else node.repr
  }

  ghost predicate ProperOrNull<V>(node: TreeNode?<V>)
    reads node, ReprOf(node)
  {
    node != null ==> node.Proper()
  }

  ghost function TreeOf<V>(node: TreeNode?<V>): Tree<V>
    requires ProperOrNull(node)
    reads node, ReprOf(node)
  {
    if node == null then Leaf else node.Shape()
  }

  predicate IsRedNode<V>(node: TreeNode?<V>)
    reads node
  {
    node != null && node.color == Red
  }

  /** Hangs two separate proper trees below a node. */
  method Link<V>(node: TreeNode<V>, left: TreeNode?<V>, color: Color, right: TreeNode?<V>)
    requires ProperOrNull(left) && ProperOrNull(right)
    requires node !in ReprOf(left) && node !in ReprOf(right) && ReprOf(left) !! ReprOf(right)
    modifies node
    ensures node.Proper() && node.repr == {node} + old(ReprOf(left)) + old(ReprOf(right))
    ensures node.Shape() == Node(old(TreeOf(left)), node.key, node.value, color, old(TreeOf(right)))
    ensures node.value == old(node.value) && node.left == left && node.right == right && node.color == color
  {
    node.left, node.right, node.color := left, right, color;
    node.repr := {node} + ReprOf(left) + ReprOf(right);
    assert ProperOrNull(left) && ProperOrNull(right);
    assert TreeOf(left) == old(TreeOf(left)) && TreeOf(right) == old(TreeOf(right));
  }

  lemma Below<V>(node: TreeNode<V>)
    requires node.Proper()
    ensures ProperOrNull(node.left) && ProperOrNull(node.right)
    ensures (node.left != null ==> node.left in ReprOf(node.left)) && (node.right != null ==> node.right in ReprOf(node.right))
    ensures node !in ReprOf(node.left) && node !in ReprOf(node.right) && ReprOf(node.left) !! ReprOf(node.right)
    ensures node.repr == {node} + ReprOf(node.left) + ReprOf(node.right)
    ensures node.Shape() == Node(TreeOf(node.left), node.key, node.value, node.color, TreeOf(node.right))
  {
  }

  lemma NodeIsItself<V>(node: TreeNode<V>)
    requires node.Proper()
    ensures ProperOrNull(node) && TreeOf(node) == node.Shape() && ReprOf(node) == node.repr && node in node.repr
  {
  }

  lemma RotatesLeft<V>(t: Tree<V>)
    requires t.Node? && t.right.Node?
    ensures Spec.RotateLeft(t) == Node(Node(t.left, t.key, t.value, Red, t.right.left), t.right.key, t.right.value, t.color, t.right.right)
  {
  }

  lemma RotatesRight<V>(t: Tree<V>)
    requires t.Node? && t.left.Node?
    ensures Spec.RotateRight(t) == Node(t.left.left, t.left.key, t.left.value, t.color, Node(t.left.right, t.key, t.value, Red, t.right))
  {
  }

  lemma Flips<V>(t: Tree<V>)
    requires t.Node? && t.left.Node? && t.right.Node?
    ensures var l, r := t.left, t.right;
            Spec.FlipColors(t) == Node(Node(l.left, l.key, l.value, if l.color == Red then Black else Red, l.right), t.key, t.value,
                                       if t.color == Black then Red else Black,
                                       Node(r.left, r.key, r.value, if r.color == Red then Black else Red, r.right))
  {
  }

  method RotateLeft<V>(node: TreeNode<V>) returns (r: TreeNode<V>)
    requires node.Proper() && node.right != null
    modifies node, node.right
    ensures r.Proper() && r.repr == old(node.repr)
    ensures r.Shape() == Spec.RotateLeft(old(node.Shape()))
  {
    hide *;
    Below(node);
    r := node.right;
    NodeIsItself(r);
    Below(r);
    var color := node.color;
    ghost var before := node.Shape();
    ghost var rest := ReprOf(r.right);
    assert {node} + ReprOf(node.left) + ReprOf(r.left) !! rest;
    Link(node, node.left, Red, r.left);
    NodeIsItself(node);
    assert ReprOf(r.right) == rest;
    Link(r, node, color, r.right);
    RotatesLeft(before);
  }

  method RotateRight<V>(node: TreeNode<V>) returns (r: TreeNode<V>)
    requires node.Proper() && node.left != null
    modifies node, node.left
    ensures r.Proper() && r.repr == old(node.repr)
    ensures r.Shape() == Spec.RotateRight(old(node.Shape()))
  {
    hide *;
    Below(node);
    r := node.left;
    NodeIsItself(r);
    Below(r);
    var color := node.color;
    ghost var before := node.Shape();
    ghost var rest := ReprOf(r.left);
    assert {node} + ReprOf(r.right) + ReprOf(node.right) !! rest;
    Link(node, r.right, Red, node.right);
    NodeIsItself(node);
    assert ReprOf(r.left) == rest;
    Link(r, r.left, color, node);
    RotatesRight(before);
  }

  /** Colouring a node leaves its tree proper and changes nothing else. */
  method Recolor<V>(node: TreeNode<V>, color: Color)
    requires node.Proper()
    modifies node
    ensures node.Proper() && node.repr == old(node.repr)
    ensures node.Shape() == Node(old(TreeOf(node.left)), node.key, old(node.value), color, old(TreeOf(node.right)))
  {
    hide *;
    Below(node);
    Link(node, node.left, color, node.right);
  }

  method FlipColors<V>(node: TreeNode<V>)
    requires node.Proper() && node.left != null && node.right != null
    modifies node, node.left, node.right
    ensures node.Proper() && node.repr == old(node.repr)
    ensures node.Shape() == Spec.FlipColors(old(node.Shape()))
  {
    hide *;
    Below(node);
    var left, right := node.left, node.right;
    NodeIsItself(left);
    NodeIsItself(right);
    Below(left);
    Below(right);
    ghost var before := node.Shape();
    var color := if node.color == Black then Red else Black;
    Recolor(left, if left.color == Red then Black else Red);
    Recolor(right, if right.color == Red then Black else Red);
    NodeIsItself(left);
    NodeIsItself(right);
    Link(node, left, color, right);
    Flips(before);
  }

  // ---------- insertion ----------

  /** The repairs at the end of `_insert`. */
  method Balance<V>(start: TreeNode<V>) returns (node: TreeNode<V>)
    requires start.Proper()
    modifies start.repr
    ensures node.Proper() && node.repr == old(start.repr)
    ensures node.Shape() == Spec.Balance(old(start.Shape()))
  {
    hide *;
    ghost var before := start.Shape();
    node := LeanLeft(start);
    node := SplitReds(node);
    PassUp(node);
    BalanceSteps(before);
  }

  lemma BalanceSteps<V>(t: Tree<V>)
    requires t.Node?
    ensures Spec.Balance(t) == Spec.PassUp(Spec.SplitReds(Spec.LeanLeft(t)))
  {
  }

  lemma LeansLeft<V>(t: Tree<V>)
    requires t.Node?
    ensures IsRed(t.right) ==> t.right.Node?
    ensures Spec.LeanLeft(t) == if IsRed(t.right) && !IsRed(t.left) then Spec.RotateLeft(t) else t
  {
  }

  lemma SplitsReds<V>(t: Tree<V>)
    requires t.Node?
    ensures IsRed(t.left) ==> t.left.Node?
    ensures Spec.SplitReds(t) == if IsRed(t.left) && IsRed(t.left.left) then Spec.RotateRight(t) else t
  {
  }

  lemma PassesUp<V>(t: Tree<V>)
    requires t.Node?
    ensures (IsRed(t.left) ==> t.left.Node?) && (IsRed(t.right) ==> t.right.Node?)
    ensures Spec.PassUp(t) == if IsRed(t.left) && IsRed(t.right) then Spec.FlipColors(t) else t
  {
  }

  lemma Links<V>(node: TreeNode<V>)
    requires node.Proper()
    ensures node in node.repr && node.Shape().Node? && node.Shape().key == node.key && node.Shape().value == node.value
    ensures ProperOrNull(node.left) && ProperOrNull(node.right)
    ensures node.left != null ==> node.left in node.repr && node.left.Proper()
    ensures node.right != null ==> node.right in node.repr && node.right.Proper()
    ensures TreeOf(node.left) == node.Shape().left && TreeOf(node.right) == node.Shape().right
    ensures IsRedNode(node) == IsRed(node.Shape())
    ensures IsRedNode(node.left) == IsRed(node.Shape().left) && (IsRedNode(node.left) ==> node.left != null)
    ensures IsRedNode(node.right) == IsRed(node.Shape().right) && (IsRedNode(node.right) ==> node.right != null)
  {
  }

  method LeanLeft<V>(start: TreeNode<V>) returns (node: TreeNode<V>)
    requires start.Proper()
    modifies start.repr
    ensures node.Proper() && node.repr == old(start.repr)
    ensures node.Shape() == Spec.LeanLeft(old(start.Shape()))
  {
    hide *;
    Links(start);
    LeansLeft(start.Shape());
    node := start;
    if IsRedNode(start.right) && !IsRedNode(start.left) {
      node := RotateLeft(start);
    }
  }

  method SplitReds<V>(start: TreeNode<V>) returns (node: TreeNode<V>)
    requires start.Proper()
    modifies start.repr
    ensures node.Proper() && node.repr == old(start.repr)
    ensures node.Shape() == Spec.SplitReds(old(start.Shape()))
  {
    hide *;
    Links(start);
    SplitsReds(start.Shape());
    node := start;
    if IsRedNode(start.left) {
      NodeIsItself(start.left);
      Links(start.left);
      if IsRedNode(start.left.left) {
        node := RotateRight(start);
      }
    }
  }

  method PassUp<V>(node: TreeNode<V>)
    requires node.Proper()
    modifies node.repr
    ensures node.Proper() && node.repr == old(node.repr)
    ensures node.Shape() == Spec.PassUp(old(node.Shape()))
  {
    hide *;
    Links(node);
    PassesUp(node.Shape());
    if IsRedNode(node.left) && IsRedNode(node.right) {
      FlipColors(node);
    }
  }

  lemma InsertsLeft<V>(t: Tree<V>, key: int, value: V)
    requires t.Node? && key < t.key
    ensures Spec.Insert(t, key, value) == Spec.Balance(Node(Spec.Insert(t.left, key, value), t.key, t.value, t.color, t.right))
    ensures Find(t, key) == Find(t.left, key)
  {
  }

  lemma InsertsRight<V>(t: Tree<V>, key: int, value: V)
    requires t.Node? && t.key < key
    ensures Spec.Insert(t, key, value) == Spec.Balance(Node(t.left, t.key, t.value, t.color, Spec.Insert(t.right, key, value)))
    ensures Find(t, key) == Find(t.right, key)
  {
  }

  lemma InsertsHere<V>(t: Tree<V>, value: V)
    requires t.Node?
    ensures Spec.Insert(t, t.key, value) == Spec.Balance(Node(t.left, t.key, value, t.color, t.right))
    ensures Find(t, t.key) == Some(t.value)
  {
  }

  lemma InsertsNew<V>(key: int, value: V)
    ensures Spec.Insert(Leaf, key, value) == Node(Leaf, key, value, Red, Leaf) && Find<V>(Leaf, key) == None
  {
  }

  lemma NullIsLeaf<V>(node: TreeNode?<V>)
    requires node == null
    ensures ProperOrNull(node) && TreeOf(node) == Leaf && ReprOf(node) == {}
  {
  }

  /** Inserts below a node; the entry is new exactly if a search would not have found the key. */
  method InsertInto<V>(node: TreeNode?<V>, key: int, value: V) returns (r: TreeNode<V>, inserted: bool)
    requires ProperOrNull(node)
    modifies ReprOf(node)
    ensures r.Proper() && fresh(r.repr - old(ReprOf(node)))
    ensures r.Shape() == Spec.Insert(old(TreeOf(node)), key, value)
    ensures inserted == (Find(old(TreeOf(node)), key) == None)
    decreases ReprOf(node)
  {
    hide *;
    if node == null {
      NullIsLeaf(node);
      InsertsNew(key, value);
      r := new TreeNode<V>(key, value);
      return r, true;
    }
    ProperNode(node);
    NodeIsItself(node);
    Below(node);
    ghost var before, all := node.Shape(), node.repr;
    ghost var leftRepr, rightRepr := ReprOf(node.left), ReprOf(node.right);
    inserted := false;
    if key < node.key {
      InsertsLeft(before, key, value);
      var left: TreeNode<V>;
      left, inserted := InsertInto(node.left, key, value);
      NodeIsItself(left);
      assert ReprOf(node.right) == rightRepr;
      Link(node, left, node.color, node.right);
    } else if node.key < key {
      InsertsRight(before, key, value);
      var right: TreeNode<V>;
      right, inserted := InsertInto(node.right, key, value);
      NodeIsItself(right);
      assert ReprOf(node.left) == leftRepr;
      Link(node, node.left, node.color, right);
    } else {
      InsertsHere(before, value);
      SetValue(node, value);
    }
    r := Balance(node);
  }

  lemma ProperNode<V>(node: TreeNode<V>)
    requires ProperOrNull(node)
    ensures node.Proper()
  {
  }

  method SetValue<V>(node: TreeNode<V>, value: V)
    requires node.Proper()
    modifies node
    ensures node.Proper() && node.repr == old(node.repr)
    ensures node.Shape() == Node(old(TreeOf(node.left)), node.key, value, old(node.color), old(TreeOf(node.right)))
  {
    hide *;
    Below(node);
    node.value := value;
    Link(node, node.left, node.color, node.right);
  }

  // ---------- the tree object ----------

  lemma PutBlackens<V>(t: Tree<V>, key: int, value: V)
    ensures var r := Spec.Insert(t, key, value); Spec.Put(t, key, value) == Node(r.left, r.key, r.value, Black, r.right)
  {
  }

  class RedBlackTree<V> {
    var root: TreeNode?<V>
    var size: nat

    ghost predicate Valid()
      reads this, root, ReprOf(root)
    {
      ProperOrNull(root) && this !in ReprOf(root) && Spec.Valid(TreeOf(root)) && size == Size(TreeOf(root))
    }

    ghost function Contents(): map<int, V>
      requires Valid()
      reads this, root, ReprOf(root)
    {
      Spec.Contents(TreeOf(root))
    }

    constructor ()
      ensures Valid() && Contents() == map[]
    {
      root, size := null, 0;
    }

    method Put(key: int, value: V)
      requires Valid()
      modifies this, ReprOf(root)
      ensures Valid() && fresh(ReprOf(root) - old(ReprOf(root)))
      ensures TreeOf(root) == Spec.Put(old(TreeOf(root)), key, value)
      ensures Contents() == old(Contents())[key := value]
    {
      hide *;
      Parts();
      ghost var before, under := TreeOf(root), ReprOf(root);
      PutCounts(before, key, value);
      PutIsValid(before, key, value);
      PutBlackens(before, key, value);
      var top, inserted := InsertInto(root, key, value);
      Links(top);
      Recolor(top, Black);
      NodeIsItself(top);
      root := top;
      if inserted {
        size := size + 1;
      }
      IsWhole();
    }

    lemma Parts()
      requires Valid()
      ensures ProperOrNull(root) && (root != null ==> root.Proper()) && this !in ReprOf(root)
      ensures Spec.Valid(TreeOf(root)) && size == Size(TreeOf(root))
      ensures Contents() == Spec.Contents(TreeOf(root))
    {
    }

    lemma IsWhole()
      requires ProperOrNull(root) && this !in ReprOf(root) && Spec.Valid(TreeOf(root)) && size == Size(TreeOf(root))
      ensures Valid() && Contents() == Spec.Contents(TreeOf(root))
    {
    }

    method Length() returns (n: nat)
      requires Valid()
      ensures n == |Contents()|
    {
      n := size;
      SizeIsCount(TreeOf(root));
    }

    /** `get`, with nothing for the missing key's error. */
    method Get(key: int) returns (r: Option<V>)
      requires Valid()
      ensures r == if key in Contents() then Some(Contents()[key]) else None
    {
      FindIsLookup(TreeOf(root), key);
      hide Spec.Valid, Items, MapOf;
      var node := root;
      while node != null
        invariant ProperOrNull(node) && Find(TreeOf(node), key) == Find(TreeOf(root), key)
        decreases ReprOf(node)
      {
        if key < node.key {
          node := node.left;
        } else if node.key < key {
          node := node.right;
        } else {
          return Some(node.value);
        }
      }
      return None;
    }

    method ListItems() returns (ordered: seq<Entry<V>>)
      requires Valid()
      ensures ordered == Items(TreeOf(root))
    {
      ordered := Visit(root);
    }

    /** `validate`: never fails, and returns the black height. */
    method Validate() returns (r: Option<nat>)
      requires Valid()
      ensures r == Some(Blacks(TreeOf(root)) + 1)
    {
      hide Inspect, Blacks, Items, Size, Spec.Valid, Spec.Contents;
      ValidPasses(TreeOf(root));
      RootColor();
      if IsRedNode(root) {
        r := None;
      } else {
        r := InspectBelow(root, None, None);
      }
    }

    lemma RootColor()
      requires ProperOrNull(root)
      ensures IsRedNode(root) == IsRed(TreeOf(root))
    {
    }
  }

  lemma ValidPasses<V>(t: Tree<V>)
    requires Spec.Valid(t)
    ensures !IsRed(t) && Inspect(t, None, None) == Some(Blacks(t) + 1)
  {
    InspectIsExact(t, None, None);
    assert AllWithin(Items(t), None, None);
  }

  method Visit<V>(node: TreeNode?<V>) returns (ordered: seq<Entry<V>>)
    requires ProperOrNull(node)
    ensures ordered == Items(TreeOf(node))
    decreases ReprOf(node)
  {
    if node == null {
      return [];
    }
    var before := Visit(node.left);
    var after := Visit(node.right);
    ordered := before + [Entry(node.key, node.value)] + after;
  }

  lemma LeafPasses<V>(lower: Option<int>, upper: Option<int>)
    ensures Inspect<V>(Leaf, lower, upper) == Some(1)
  {
  }

  lemma InspectSteps<V>(t: Tree<V>, lower: Option<int>, upper: Option<int>)
    requires t.Node?
    ensures Inspect(t, lower, upper) ==
            if (lower.Some? && !(lower.value < t.key)) || (upper.Some? && !(t.key < upper.value)) || IsRed(t.right)
               || (IsRed(t) && IsRed(t.left)) then None
            else
              var left, right := Inspect(t.left, lower, Some(t.key)), Inspect(t.right, Some(t.key), upper);
              if left == None || right == None || left != right then None
              else Some(left.value + (if t.color == Black then 1 else 0))
  {
  }

  method InspectBelow<V>(node: TreeNode?<V>, lower: Option<int>, upper: Option<int>) returns (r: Option<nat>)
    requires ProperOrNull(node)
    ensures r == Inspect(TreeOf(node), lower, upper)
    decreases ReprOf(node)
  {
    hide *;
    if node == null {
      NullIsLeaf(node);
      LeafPasses<V>(lower, upper);
      return Some(1);
    }
    ProperNode(node);
    NodeIsItself(node);
    Links(node);
    Below(node);
    InspectSteps(node.Shape(), lower, upper);
    if lower.Some? && !(lower.value < node.key) {
      return None;
    }
    if upper.Some? && !(node.key < upper.value) {
      return None;
    }
    if IsRedNode(node.right) || (IsRedNode(node) && IsRedNode(node.left)) {
      return None;
    }
    var left := InspectBelow(node.left, lower, Some(node.key));
    var right := InspectBelow(node.right, Some(node.key), upper);
    if left == None || right == None || left != right {
      return None;
    }
    return Some(left.value + if node.color == Black then 1 else 0);
  }
}
