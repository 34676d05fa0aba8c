/** Left-leaning red-black trees as values: insertion and what it keeps (lab 06). */
module RedBlackModel {
  import opened Options

  datatype Color = Red | Black

  /** Keys stand for values of any total order. */
  datatype Tree<V> = Leaf | Node(left: Tree<V>, key: int, value: V, color: Color, right: Tree<V>)

  predicate IsRed<V>(t: Tree<V>) {
    t.Node? && t.color == Red
  }

  function Flipped(c: Color): Color {
    if c == Red then Black else Red
  }

  // ---------- restructuring ----------

  function RotateLeft<V>(t: Tree<V>): Tree<V>
    requires t.Node? && t.right.Node?
  {
    var r := t.right;
    Node(Node(t.left, t.key, t.value, Red, r.left), r.key, r.value, t.color, r.right)
  }

  function RotateRight<V>(t: Tree<V>): Tree<V>
    requires t.Node? && t.left.Node?
  {
    var l := t.left;
    Node(l.left, l.key, l.value, t.color, Node(l.right, t.key, t.value, Red, t.right))
  }

  function FlipColors<V>(t: Tree<V>): Tree<V>
    requires t.Node? && t.left.Node? && t.right.Node?
  {
    t.(color := Flipped(t.color), left := t.left.(color := Flipped(t.left.color)), right := t.right.(color := Flipped(t.right.color)))
  }

  function LeanLeft<V>(t: Tree<V>): Tree<V>
    requires t.Node?
  {
    if IsRed(t.right) && !IsRed(t.left) then RotateLeft(t) else t
  }

  function SplitReds<V>(t: Tree<V>): Tree<V>
    requires t.Node?
  {
    if IsRed(t.left) && IsRed(t.left.left) then RotateRight(t) else t
  }

  function PassUp<V>(t: Tree<V>): Tree<V>
    requires t.Node?
  {
    if IsRed(t.left) && IsRed(t.right) then FlipColors(t) else t
  }

  /** The three repairs after an insertion below, in the source's order. */
  function Balance<V>(t: Tree<V>): Tree<V>
    requires t.Node?
  {
    PassUp(SplitReds(LeanLeft(t)))
  }

  function Insert<V>(t: Tree<V>, key: int, value: V): (r: Tree<V>)
    ensures r.Node?
  {
    if t == Leaf then Node(Leaf, key, value, Red, Leaf)
    else if key < t.key then Balance(t.(left := Insert(t.left, key, value)))
    else if t.key < key then Balance(t.(right := Insert(t.right, key, value)))
    else Balance(t.(value := value))
  }

  function Put<V>(t: Tree<V>, key: int, value: V): Tree<V> {
    var r := Insert(t, key, value);
    Node(r.left, r.key, r.value, Black, r.right)
  }

  // ---------- contents ----------

  datatype Entry<V> = Entry(key: int, value: V)

  /** The entries from left to right. */
  function Items<V>(t: Tree<V>): seq<Entry<V>> {
    if t == Leaf then [] else Items(t.left) + [Entry(t.key, t.value)] + Items(t.right)
  }

  ghost predicate Ascending<V>(s: seq<Entry<V>>) {
    forall i, j :: 0 <= i < j < |s| ==> s[i].key < s[j].key
  }

  /** The map that an association list stands for. */
  function MapOf<V>(s: seq<Entry<V>>): map<int, V> {
    if s == [] then map[] else MapOf(s[1..])[s[0].key := s[0].value]
  }

  /** Puts an entry where its key belongs in an ascending list. */
  function Place<V>(s: seq<Entry<V>>, key: int, value: V): seq<Entry<V>> {
    if s == [] || key < s[0].key then [Entry(key, value)] + s
    else if key == s[0].key then [Entry(key, value)] + s[1..]
    else [s[0]] + Place(s[1..], key, value)
  }

  lemma FirstIsLeast<V>(s: seq<Entry<V>>)
    requires Ascending(s) && s != []
    ensures Ascending(s[1..]) && forall e :: e in s[1..] ==> s[0].key < e.key
    ensures forall e :: e in s <==> e == s[0] || e in s[1..]
  {
    assert s == [s[0]] + s[1..];
  }

  /** An ascending list and its map hold the same entries. */
  lemma {:induction false} MapHolds<V>(s: seq<Entry<V>>)
    requires Ascending(s)
    ensures forall e :: e in s ==> e.key in MapOf(s) && MapOf(s)[e.key] == e.value
    ensures forall k :: k in MapOf(s) ==> Entry(k, MapOf(s)[k]) in s
  {
    if s != [] {
      FirstIsLeast(s);
      MapHolds(s[1..]);
      hide Ascending;
      assert s[0].key !in MapOf(s[1..]);
    }
  }

  lemma {:induction false} MapSize<V>(s: seq<Entry<V>>)
    requires Ascending(s)
    ensures |MapOf(s)| == |s|
  {
    if s != [] {
      FirstIsLeast(s);
      MapHolds(s[1..]);
      MapSize(s[1..]);
      hide Ascending;
      var rest := MapOf(s[1..]);
      assert s[0].key !in rest;
      assert MapOf(s).Keys == rest.Keys + {s[0].key};
    }
  }

  lemma {:induction false} PlaceKeys<V>(s: seq<Entry<V>>, key: int, value: V)
    requires Ascending(s)
    ensures forall e :: e in Place(s, key, value) ==> e.key == key || e in s
  {
    if s != [] && s[0].key < key {
      PlaceKeys(s[1..], key, value);
    }
  }

  lemma AscendingCons<V>(e: Entry<V>, s: seq<Entry<V>>)
    requires Ascending(s) && forall x :: x in s ==> e.key < x.key
    ensures Ascending([e] + s)
  {
    assert forall i :: 0 <= i < |s| ==> s[i] in s;
  }

  lemma {:induction false} PlaceAscends<V>(s: seq<Entry<V>>, key: int, value: V)
    requires Ascending(s)
    ensures Ascending(Place(s, key, value))
  {
    if s != [] {
      FirstIsLeast(s);
      PlaceKeys(s[1..], key, value);
      hide Ascending;
      if s[0].key < key {
        PlaceAscends(s[1..], key, value);
        AscendingCons(s[0], Place(s[1..], key, value));
      } else if s[0].key == key {
        AscendingCons(Entry(key, value), s[1..]);
      } else {
        AscendingCons(Entry(key, value), s);
      }
    }
  }

  /** Placing an entry updates the map. */
  lemma {:induction false} PlaceUpdates<V>(s: seq<Entry<V>>, key: int, value: V)
    ensures MapOf(Place(s, key, value)) == MapOf(s)[key := value]
  {
    if s != [] && s[0].key < key {
      PlaceUpdates(s[1..], key, value);
      var rest := Place(s[1..], key, value);
      assert ([s[0]] + rest)[1..] == rest;
    } else if s != [] && s[0].key == key {
      assert ([Entry(key, value)] + s[1..])[1..] == s[1..];
    } else {
      assert ([Entry(key, value)] + s)[1..] == s;
    }
  }

  lemma {:induction false} PlaceLeft<V>(a: seq<Entry<V>>, x: Entry<V>, b: seq<Entry<V>>, key: int, value: V)
    requires key < x.key
    ensures Place(a + [x] + b, key, value) == Place(a, key, value) + [x] + b
  {
    if a == [] {
      assert [] + [x] + b == [x] + b;
      assert Place(a, key, value) == [Entry(key, value)];
    } else {
      PlaceLeft(a[1..], x, b, key, value);
      assert (a + [x] + b)[1..] == a[1..] + [x] + b;
    }
  }

  lemma {:induction false} PlaceRight<V>(a: seq<Entry<V>>, x: Entry<V>, b: seq<Entry<V>>, key: int, value: V)
    requires x.key < key && forall e :: e in a ==> e.key < key
    ensures Place(a + [x] + b, key, value) == a + [x] + Place(b, key, value)
  {
    if a == [] {
      assert [] + [x] + b == [x] + b;
    } else {
      PlaceRight(a[1..], x, b, key, value);
      assert (a + [x] + b)[1..] == a[1..] + [x] + b;
    }
  }

  lemma {:induction false} PlaceHere<V>(a: seq<Entry<V>>, x: Entry<V>, b: seq<Entry<V>>, value: V)
    requires forall e :: e in a ==> e.key < x.key
    ensures Place(a + [x] + b, x.key, value) == a + [Entry(x.key, value)] + b
  {
    if a == [] {
      assert [] + [x] + b == [x] + b;
    } else {
      PlaceHere(a[1..], x, b, value);
      assert (a + [x] + b)[1..] == a[1..] + [x] + b;
    }
  }

  // ---------- shape ----------

  /** Black nodes from here down, the same on every way if the tree is even. */
  function Blacks<V>(t: Tree<V>): nat {
    if t == Leaf then 0 else Blacks(t.left) + (if t.color == Black then 1 else 0)
  }

  /** Not a red node with a red left child. */
  predicate Apart<V>(t: Tree<V>) {
    !(IsRed(t) && IsRed(t.left))
  }

  /** Red links lean left, no two reds meet below the root, and all ways down have equally many black nodes. */
  predicate Even<V>(t: Tree<V>) {
    t == Leaf ||
    (&& !IsRed(t.right) && Blacks(t.left) == Blacks(t.right)
     && Apart(t.left) && Even(t.left) && Even(t.right))
  }

  predicate Sound<V>(t: Tree<V>) {
    Even(t) && Apart(t)
  }

  /** A node over two sound subtrees of equal blackness, of which the right one may have become red. */
  lemma RightRepaired<V>(t: Tree<V>)
    requires t.Node? && Sound(t.left) && Sound(t.right) && Blacks(t.left) == Blacks(t.right) && Apart(t)
    ensures Even(Balance(t)) && Blacks(Balance(t)) == Blacks(t)
    ensures !IsRed(t) ==> Sound(Balance(t))
  {
    if IsRed(t.right) && !IsRed(t.left) {
      assert Even(t.right.left) && Even(t.right.right);
      assert Even(Node(t.left, t.key, t.value, Red, t.right.left));
    } else if IsRed(t.right) {
      assert Even(t.left.(color := Black)) && Even(t.right.(color := Black));
    }
  }

  /** A node whose left subtree is even; two reds meet at that subtree's root only below a black node. */
  lemma LeftRepaired<V>(t: Tree<V>)
    requires t.Node? && Even(t.left) && Sound(t.right) && !IsRed(t.right) && Blacks(t.left) == Blacks(t.right)
    requires Apart(t.left) || !IsRed(t)
    ensures Even(Balance(t)) && Blacks(Balance(t)) == Blacks(t)
    ensures !IsRed(t) ==> Sound(Balance(t))
  {
    if !Apart(t.left) {
      var r := RotateRight(t);
      assert SplitReds(LeanLeft(t)) == r && r.left == t.left.left;
      assert Even(r.left) && Even(t.left.right);
      assert Even(r.right);
      assert Even(r.left.(color := Black)) && Even(r.right.(color := Black));
    }
  }

  /** Insertion keeps the tree even; only below a red root can two reds meet, and then at the root. */
  lemma {:induction false} InsertIsEven<V>(t: Tree<V>, key: int, value: V)
    requires Sound(t)
    ensures Even(Insert(t, key, value)) && Blacks(Insert(t, key, value)) == Blacks(t)
    ensures !IsRed(t) ==> Sound(Insert(t, key, value))
  {
    hide Balance;
    if t != Leaf {
      if key < t.key {
        InsertIsEven(t.left, key, value);
        LeftRepaired(t.(left := Insert(t.left, key, value)));
      } else if t.key < key {
        InsertIsEven(t.right, key, value);
        RightRepaired(t.(right := Insert(t.right, key, value)));
      } else {
        RightRepaired(t.(value := value));
      }
    }
  }

  lemma PutIsSound<V>(t: Tree<V>, key: int, value: V)
    requires Sound(t) && !IsRed(t)
    ensures Sound(Put(t, key, value)) && !IsRed(Put(t, key, value))
  {
    InsertIsEven(t, key, value);
  }

  // ---------- the tree is the list, and the list is the map ----------

  lemma ItemsOf<V>(left: Tree<V>, key: int, value: V, color: Color, right: Tree<V>)
    ensures Items(Node(left, key, value, color, right)) == Items(left) + [Entry(key, value)] + Items(right)
  {
  }

  lemma RotateLeftKeeps<V>(t: Tree<V>)
    requires t.Node? && t.right.Node?
    ensures Items(RotateLeft(t)) == Items(t)
  {
    hide Items;
    var r := t.right;
    ItemsOf(t.left, t.key, t.value, t.color, r);
    ItemsOf(r.left, r.key, r.value, r.color, r.right);
    ItemsOf(t.left, t.key, t.value, Red, r.left);
    ItemsOf(RotateLeft(t).left, r.key, r.value, t.color, r.right);
    Regroup(Items(t.left), [Entry(t.key, t.value)], Items(r.left), [Entry(r.key, r.value)], Items(r.right));
  }

  lemma RotateRightKeeps<V>(t: Tree<V>)
    requires t.Node? && t.left.Node?
    ensures Items(RotateRight(t)) == Items(t)
  {
    hide Items;
    var l := t.left;
    ItemsOf(l, t.key, t.value, t.color, t.right);
    ItemsOf(l.left, l.key, l.value, l.color, l.right);
    ItemsOf(l.right, t.key, t.value, Red, t.right);
    ItemsOf(l.left, l.key, l.value, t.color, RotateRight(t).right);
    Regroup(Items(l.left), [Entry(l.key, l.value)], Items(l.right), [Entry(t.key, t.value)], Items(t.right));
  }

  lemma Regroup<T>(a: seq<T>, x: seq<T>, b: seq<T>, y: seq<T>, c: seq<T>)
    ensures (a + x + b) + y + c == a + x + (b + y + c)
  {
  }

  lemma FlipKeeps<V>(t: Tree<V>)
    requires t.Node? && t.left.Node? && t.right.Node?
    ensures Items(FlipColors(t)) == Items(t)
  {
  }

  lemma BalanceKeeps<V>(t: Tree<V>)
    requires t.Node?
    ensures Items(Balance(t)) == Items(t)
  {
    hide Items, FlipColors;
    if IsRed(t.right) && !IsRed(t.left) {
      RotateLeftKeeps(t);
    }
    var a := LeanLeft(t);
    if IsRed(a.left) && IsRed(a.left.left) {
      RotateRightKeeps(a);
    }
    var b := SplitReds(a);
    if IsRed(b.left) && IsRed(b.right) {
      FlipKeeps(b);
    }
  }

  lemma AscendingParts<V>(a: seq<Entry<V>>, x: Entry<V>, b: seq<Entry<V>>)
    requires Ascending(a + [x] + b)
    ensures Ascending(a) && Ascending(b)
    ensures forall e :: e in a ==> e.key < x.key
    ensures forall e :: e in b ==> x.key < e.key
  {
    var s := a + [x] + b;
    assert s[|a|] == x;
    assert forall i :: 0 <= i < |a| ==> s[i] == a[i];
    assert forall i :: 0 <= i < |b| ==> s[|a| + 1 + i] == b[i];
  }

  /** Insertion into the tree places the entry in its list. */
  lemma {:induction false} InsertPlaces<V>(t: Tree<V>, key: int, value: V)
    requires Ascending(Items(t))
    ensures Items(Insert(t, key, value)) == Place(Items(t), key, value)
  {
    hide Balance;
    if t != Leaf {
      var a, x, b := Items(t.left), Entry(t.key, t.value), Items(t.right);
      AscendingParts(a, x, b);
      if key < t.key {
        InsertPlaces(t.left, key, value);
        PlaceLeft(a, x, b, key, value);
        BalanceKeeps(t.(left := Insert(t.left, key, value)));
      } else if t.key < key {
        InsertPlaces(t.right, key, value);
        PlaceRight(a, x, b, key, value);
        BalanceKeeps(t.(right := Insert(t.right, key, value)));
      } else {
        PlaceHere(a, x, b, value);
        BalanceKeeps(t.(value := value));
      }
    }
  }

  function Size<V>(t: Tree<V>): nat {
    if t == Leaf then 0 else Size(t.left) + 1 + Size(t.right)
  }

  lemma {:induction false} SizeIsLength<V>(t: Tree<V>)
    ensures Size(t) == |Items(t)|
  {
    if t != Leaf {
      SizeIsLength(t.left);
      SizeIsLength(t.right);
    }
  }

  /** Walking down from the root, as `get` does. */
  function Find<V>(t: Tree<V>, key: int): Option<V> {
    if t == Leaf then None
    else if key < t.key then Find(t.left, key)
    else if t.key < key then Find(t.right, key)
    else Some(t.value)
  }

  /** The search finds exactly what the list holds. */
  lemma {:induction false} FindIsMember<V>(t: Tree<V>, key: int, value: V)
    requires Ascending(Items(t))
    ensures Find(t, key) == Some(value) <==> Entry(key, value) in Items(t)
  {
    if t != Leaf {
      var a, x, b := Items(t.left), Entry(t.key, t.value), Items(t.right);
      AscendingParts(a, x, b);
      hide Ascending;
      FindIsMember(t.left, key, value);
      FindIsMember(t.right, key, value);
      assert Entry(key, value) in a + [x] + b <==> Entry(key, value) in a || Entry(key, value) == x || Entry(key, value) in b;
    }
  }

  lemma FindIsLookup<V>(t: Tree<V>, key: int)
    requires Ascending(Items(t))
    ensures Find(t, key) == if key in MapOf(Items(t)) then Some(MapOf(Items(t))[key]) else None
  {
    hide Find, Items, Ascending;
    var held := MapOf(Items(t));
    MapHolds(Items(t));
    if key in held {
      FindIsMember(t, key, held[key]);
      assert Entry(key, held[key]) in Items(t);
    } else if Find(t, key).Some? {
      FindIsMember(t, key, Find(t, key).value);
    }
  }

  // ---------- every tree that puts can build ----------

  function Build<V>(puts: seq<Entry<V>>): Tree<V> {
    if puts == [] then Leaf
    else Put(Build(puts[..|puts| - 1]), puts[|puts| - 1].key, puts[|puts| - 1].value)
  }

  /** The map that assigning the entries one after another gives. */
  function Assigned<V>(puts: seq<Entry<V>>): map<int, V> {
    if puts == [] then map[] else Assigned(puts[..|puts| - 1])[puts[|puts| - 1].key := puts[|puts| - 1].value]
  }

  ghost predicate Valid<V>(t: Tree<V>) {
    Sound(t) && !IsRed(t) && Ascending(Items(t))
  }

  ghost function Contents<V>(t: Tree<V>): map<int, V> {
    MapOf(Items(t))
  }

  lemma PutIsValid<V>(t: Tree<V>, key: int, value: V)
    requires Valid(t)
    ensures Valid(Put(t, key, value)) && Contents(Put(t, key, value)) == Contents(t)[key := value]
  {
    PutIsSound(t, key, value);
    InsertPlaces(t, key, value);
    PlaceAscends(Items(t), key, value);
    PlaceUpdates(Items(t), key, value);
  }

  /** A put adds a node exactly when the search does not find the key. */
  lemma PutCounts<V>(t: Tree<V>, key: int, value: V)
    requires Valid(t)
    ensures Size(Put(t, key, value)) == Size(t) + (if Find(t, key) == None then 1 else 0)
  {
    hide Put, Find, Items, Ascending;
    PutIsValid(t, key, value);
    FindIsLookup(t, key);
    SizeIsCount(t);
    SizeIsCount(Put(t, key, value));
    if key in Contents(t) {
      assert Contents(t)[key := value].Keys == Contents(t).Keys;
    } else {
      assert Contents(t)[key := value].Keys == Contents(t).Keys + {key};
    }
  }

  /** A valid tree has one node for each key of its map. */
  lemma SizeIsCount<V>(t: Tree<V>)
    requires Valid(t)
    ensures Size(t) == |Contents(t)|
  {
    SizeIsLength(t);
    MapSize(Items(t));
  }

  /** After any sequence of puts the tree is valid and is the assigned map. */
  lemma {:induction false} BuildIsMap<V>(puts: seq<Entry<V>>)
    ensures Valid(Build(puts)) && Contents(Build(puts)) == Assigned(puts)
  {
    if puts != [] {
      BuildIsMap(puts[..|puts| - 1]);
      PutIsValid(Build(puts[..|puts| - 1]), puts[|puts| - 1].key, puts[|puts| - 1].value);
    }
  }

  // ---------- what `validate` checks ----------

  predicate Within(key: int, lower: Option<int>, upper: Option<int>) {
    (lower == None || lower.value < key) && (upper == None || key < upper.value)
  }

  /** The checks of `validate` below the root, with its result: the black height counted with the empty leaves, or none. */
  function Inspect<V>(t: Tree<V>, lower: Option<int>, upper: Option<int>): Option<nat> {
    if t == Leaf then Some(1)
    else if !Within(t.key, lower, upper) || IsRed(t.right) || !Apart(t) then None
    else
      var left := Inspect(t.left, lower, Some(t.key));
      var right := Inspect(t.right, Some(t.key), upper);
      if left == None || right == None || left != right then None
      else Some(left.value + (if t.color == Black then 1 else 0))
  }

  ghost predicate AllWithin<V>(s: seq<Entry<V>>, lower: Option<int>, upper: Option<int>) {
    forall e :: e in s ==> Within(e.key, lower, upper)
  }

  /** The checks pass exactly on sound trees whose keys ascend within the bounds. */
  lemma {:induction false} InspectIsExact<V>(t: Tree<V>, lower: Option<int>, upper: Option<int>)
    ensures Inspect(t, lower, upper).Some? <==> Sound(t) && Ascending(Items(t)) && AllWithin(Items(t), lower, upper)
    ensures Inspect(t, lower, upper).Some? ==> Inspect(t, lower, upper).value == Blacks(t) + 1
  {
    if t != Leaf {
      InspectIsExact(t.left, lower, Some(t.key));
      InspectIsExact(t.right, Some(t.key), upper);
      BoundsSplit(Items(t.left), Entry(t.key, t.value), Items(t.right), lower, upper);
      hide Ascending, AllWithin;
    }
  }

  /** A list ascends within bounds exactly when its halves do, with the middle as a bound. */
  lemma BoundsSplit<V>(a: seq<Entry<V>>, x: Entry<V>, b: seq<Entry<V>>, lower: Option<int>, upper: Option<int>)
    ensures Ascending(a + [x] + b) && AllWithin(a + [x] + b, lower, upper) <==>
              && Within(x.key, lower, upper)
              && Ascending(a) && AllWithin(a, lower, Some(x.key))
              && Ascending(b) && AllWithin(b, Some(x.key), upper)
  {
    var s := a + [x] + b;
    assert forall e :: e in s <==> e in a || e == x || e in b;
    if Ascending(s) && AllWithin(s, lower, upper) {
      AscendingParts(a, x, b);
      hide Ascending;
    }
    if Within(x.key, lower, upper) && Ascending(a) && AllWithin(a, lower, Some(x.key)) && Ascending(b) && AllWithin(b, Some(x.key), upper) {
      AscendingJoins(a, x, b);
    }
  }

  lemma AscendingJoins<V>(a: seq<Entry<V>>, x: Entry<V>, b: seq<Entry<V>>)
    requires Ascending(a) && Ascending(b)
    requires forall e :: e in a ==> e.key < x.key
    requires forall e :: e in b ==> x.key < e.key
    ensures Ascending(a + [x] + b)
  {
    var s := a + [x] + b;
    forall i, j | 0 <= i < j < |s| ensures s[i].key < s[j].key {
      if i < |a| {
        assert a[i] in a;
      }
      if j > |a| {
        assert b[j - |a| - 1] in b;
      }
    }
  }

  // ---------- height ----------

  function Height<V>(t: Tree<V>): nat {
    if t == Leaf then 0
    else 1 + if Height(t.left) < Height(t.right) then Height(t.right) else Height(t.left)
  }

  function Pow2(n: nat): nat {
    if n == 0 then 1 else 2 * Pow2(n - 1)
  }

  lemma {:induction false} Pow2Grows(a: nat, b: nat)
    requires a <= b
    ensures Pow2(a) <= Pow2(b)
  {
    if a < b {
      Pow2Grows(a, b - 1);
    }
  }

  lemma {:induction false} BlacksFill<V>(t: Tree<V>)
    requires Even(t)
    ensures Pow2(Blacks(t)) <= Size(t) + 1
  {
    if t != Leaf {
      BlacksFill(t.left);
      BlacksFill(t.right);
    }
  }

  lemma {:induction false} BlacksBoundHeight<V>(t: Tree<V>)
    requires Sound(t)
    ensures Height(t) <= 2 * Blacks(t) + (if IsRed(t) then 1 else 0)
  {
    if t != Leaf {
      BlacksBoundHeight(t.left);
      BlacksBoundHeight(t.right);
    }
  }

  /** The tree is never higher than twice the logarithm of its size. */
  lemma HeightIsLogarithmic<V>(t: Tree<V>)
    requires Valid(t)
    ensures Pow2((Height(t) + 1) / 2) <= Size(t) + 1
  {
    BlacksFill(t);
    BlacksBoundHeight(t);
    Pow2Grows((Height(t) + 1) / 2, Blacks(t));
  }
}
