/**
 The skip list of star/ds/skip_list.h: nodes with one forward pointer per level, rewired in
 place.  `chains[i]` is the list at level i, from the header on.
 */
module SkipListModule {
  import opened Options
  import opened RandomModule

  const MAX_LEVEL := 16

  class Node<V(0)> {
    const key: int
    var value: V
    var forward: seq<Node?<V>>
    var nodeLevel: nat

    constructor (key: int, value: V, level: nat)
      ensures this.key == key && this.value == value && nodeLevel == level
      ensures |forward| == MAX_LEVEL + 1 && forall i :: 0 <= i <= MAX_LEVEL ==> forward[i] == null
    {
      this.key, this.value, nodeLevel := key, value, level;
      forward := seq(MAX_LEVEL + 1, _ => null);
    }

    function GetLevel(level: nat): Node?<V>
      reads this
      requires |forward| == MAX_LEVEL + 1 && level <= MAX_LEVEL
    {
      if level > nodeLevel then null else forward[level]
    }
  }

  /** `compare`: the list is ascending or descending. */
  predicate Before(less: bool, a: int, b: int) { if less then a < b else a > b }

  ghost predicate Sorted<V(0)>(c: seq<Node<V>>, less: bool) {
    forall j, k :: 1 <= j < k < |c| ==> Before(less, c[j].key, c[k].key)
  }

  ghost function NodeAt<V(0)>(c: seq<Node<V>>, k: nat): Node?<V> {
    if k < |c| then c[k] else null
  }

  /** The nodes of c are linked at level i, and strictly sorted behind the header. */
  ghost predicate Chain<V(0)>(c: seq<Node<V>>, i: nat, less: bool, R: set<Node<V>>)
    requires i <= MAX_LEVEL
    reads R
  {
    c != [] && Sorted(c, less) && HeadOnce(c) && Members(c, i, R) && Links(c, i, R)
  }

  ghost predicate HeadOnce<V(0)>(c: seq<Node<V>>) {
    forall k :: 1 <= k < |c| ==> c[k] != c[0]
  }

  ghost predicate Members<V(0)>(c: seq<Node<V>>, i: nat, R: set<Node<V>>)
    reads R
  {
    forall k :: 0 <= k < |c| ==> c[k] in R && |c[k].forward| == MAX_LEVEL + 1 && c[k].nodeLevel >= i
  }

  ghost predicate Links<V(0)>(c: seq<Node<V>>, i: nat, R: set<Node<V>>)
    requires i <= MAX_LEVEL && Members(c, i, R)
    reads R
  {
    forall k :: 0 <= k < |c| ==> c[k].forward[i] == NodeAt(c, k + 1)
  }

  ghost predicate Chains<V(0)>(chains: seq<seq<Node<V>>>, header: Node<V>, less: bool, R: set<Node<V>>)
    reads R
  {
    && |chains| == MAX_LEVEL + 1
    && forall i :: 0 <= i <= MAX_LEVEL ==> Chain(chains[i], i, less, R) && chains[i][0] == header
  }

  /** Every level is contained in the level below. */
  ghost predicate Nested<V(0)>(chains: seq<seq<Node<V>>>) {
    forall i, j :: 0 <= i < j < |chains| ==> Within(chains[j], chains[i])
  }

  ghost predicate Within<V(0)>(a: seq<Node<V>>, b: seq<Node<V>>) {
    forall n :: n in a ==> n in b
  }

  /** c[u] is the last node before the key. */
  ghost predicate Slot<V(0)>(c: seq<Node<V>>, u: nat, less: bool, key: int) {
    && u < |c| && (u > 0 ==> Before(less, c[u].key, key))
    && (u + 1 < |c| ==> !Before(less, c[u + 1].key, key))
  }

  /** The bottom level holds exactly the entries of the map. */
  ghost predicate Mirrors<V(0)>(c: seq<Node<V>>, m: map<int, V>, R: set<Node<V>>)
    requires forall k :: 0 <= k < |c| ==> c[k] in R
    reads R
  {
    && (forall k :: 1 <= k < |c| ==> c[k].key in m && m[c[k].key] == c[k].value)
    && (forall x :: x in m ==> exists k :: 1 <= k < |c| && c[k].key == x)
  }

  // ----- Rewiring one level -----

  ghost function Put<V(0)>(c: seq<Node<V>>, u: nat, n: Node<V>): seq<Node<V>>
    requires u < |c|
  {
    c[..u + 1] + [n] + c[u + 1..]
  }

  /** The key fits strictly between c[u] and its successor. */
  ghost predicate Gap<V(0)>(c: seq<Node<V>>, u: nat, less: bool, key: int) {
    Slot(c, u, less, key) && (u + 1 < |c| ==> c[u + 1].key != key)
  }

  lemma PutSorted<V(0)>(c: seq<Node<V>>, u: nat, n: Node<V>, less: bool)
    requires Sorted(c, less) && Gap(c, u, less, n.key)
    ensures Sorted(Put(c, u, n), less) && u < |c| && (HeadOnce(c) && n !in c ==> HeadOnce(Put(c, u, n)))
  {
    var d := Put(c, u, n);
    forall j, k | 1 <= j < k < |d| ensures Before(less, d[j].key, d[k].key) {
      assert j <= u && u > j ==> Before(less, c[j].key, c[u].key);
      assert k > u + 2 ==> Before(less, c[u + 1].key, c[k - 1].key);
    }
  }

  lemma Apart<V(0)>(c: seq<Node<V>>, less: bool, j: nat, k: nat)
    requires Sorted(c, less) && HeadOnce(c) && j < |c| && k < |c|
    ensures c[j] == c[k] ==> j == k
  {
  }

  /** The two assignments at one level, and what they make of its list. */
  method Rewire<V(0)>(prev: Node<V>, node: Node<V>, i: nat, ghost chains: seq<seq<Node<V>>>, ghost c: seq<Node<V>>,
                      ghost u: nat, ghost less: bool, ghost R: set<Node<V>>)
    requires i <= MAX_LEVEL && Chain(c, i, less, R) && u < |c| && prev == c[u]
    requires node in R && node !in c && |node.forward| == MAX_LEVEL + 1 && node.nodeLevel >= i
    modifies prev`forward, node`forward
    ensures prev.forward == old(prev.forward)[i := node] && node.forward == old(node.forward)[i := old(prev.forward[i])]
    ensures Members(Put(c, u, node), i, R) && Links(Put(c, u, node), i, R)
    ensures forall j :: 0 <= j <= MAX_LEVEL && j != i && j < |chains| && old(Chain(chains[j], j, less, R)) ==> Chain(chains[j], j, less, R)
  {
    hide Sorted, HeadOnce;
    forall k | 0 <= k < |c| ensures c[k] == prev ==> k == u {
      Apart(c, less, k, u);
    }
    node.forward := node.forward[i := prev.forward[i]];
    prev.forward := prev.forward[i := node];
  }

  /** Insert a node behind prev at one level; no other level notices. */
  method Link<V(0)>(prev: Node<V>, node: Node<V>, i: nat,
                    ghost chains: seq<seq<Node<V>>>, ghost u: nat, ghost header: Node<V>, ghost less: bool, ghost R: set<Node<V>>)
    requires Chains(chains, header, less, R) && i <= MAX_LEVEL && Gap(chains[i], u, less, node.key) && prev == chains[i][u]
    requires node in R && node !in chains[i] && |node.forward| == MAX_LEVEL + 1 && node.nodeLevel >= i
    modifies prev`forward, node`forward
    ensures Chains(chains[i := Put(chains[i], u, node)], header, less, R)
    ensures |node.forward| == MAX_LEVEL + 1
  {
    hide Sorted, HeadOnce, Gap, Members, Links;
    assert Chain(chains[i], i, less, R);
    PutSorted(chains[i], u, node, less);
    Rewire(prev, node, i, chains, chains[i], u, less, R);
    forall j | 0 <= j <= MAX_LEVEL && j != i ensures Chain(chains[j], j, less, R) && chains[j][0] == header {
      assert old(Chain(chains[j], j, less, R));
    }
  }

  /** The lists with the node inserted at the levels from i + 1 to `level`. */
  ghost predicate Grown<V(0)>(was: seq<seq<Node<V>>>, slots: seq<nat>, node: Node<V>, i: int, level: nat, chains: seq<seq<Node<V>>>) {
    && |was| == |slots| == |chains|
    && (forall j :: 0 <= j < |was| ==> slots[j] < |was[j]|)
    && (forall j :: 0 <= j < |was| ==> chains[j] == if i < j <= level then Put(was[j], slots[j], node) else was[j])
  }

  lemma PutElements<V(0)>(c: seq<Node<V>>, u: nat, node: Node<V>, n: Node<V>)
    requires u < |c|
    ensures n in Put(c, u, node) <==> n in c || n == node
  {
    assert c == c[..u + 1] + c[u + 1..];
  }

  lemma GrownNested<V(0)>(was: seq<seq<Node<V>>>, slots: seq<nat>, node: Node<V>, level: nat, chains: seq<seq<Node<V>>>)
    requires Nested(was) && Grown(was, slots, node, -1, level, chains)
    ensures Nested(chains)
  {
    hide Put;
    forall i, j | 0 <= i < j < |chains| ensures Within(chains[j], chains[i]) {
      assert Within(was[j], was[i]);
      forall n | n in chains[j] ensures n in chains[i] {
        PutElements(was[j], slots[j], node, n);
        PutElements(was[i], slots[i], node, n);
      }
    }
  }

  /** The bottom list with a new entry. */
  lemma PutMirrors<V(0)>(c: seq<Node<V>>, u: nat, node: Node<V>, m: map<int, V>, R: set<Node<V>>)
    requires (forall k :: 0 <= k < |c| ==> c[k] in R) && node in R && u < |c|
    requires Mirrors(c, m, R) && node.key !in m
    ensures forall k :: 0 <= k < |c| + 1 ==> Put(c, u, node)[k] in R
    ensures Mirrors(Put(c, u, node), m[node.key := node.value], R)
  {
    var d := Put(c, u, node);
    var m' := m[node.key := node.value];
    forall x | x in m' ensures exists k :: 1 <= k < |d| && d[k].key == x {
      if x == node.key {
        assert d[u + 1].key == x;
      } else {
        var k :| 1 <= k < |c| && c[k].key == x;
        assert d[if k <= u then k else k + 1].key == x;
      }
    }
  }

  lemma ChainMember<V(0)>(chains: seq<seq<Node<V>>>, header: Node<V>, less: bool, R: set<Node<V>>, i: nat, k: nat)
    requires Chains(chains, header, less, R) && i <= MAX_LEVEL && k < |chains[i]|
    ensures chains[i][k] in R
  {
    assert Chain(chains[i], i, less, R);
  }

  lemma ChainMembers<V(0)>(chains: seq<seq<Node<V>>>, header: Node<V>, less: bool, R: set<Node<V>>)
    requires Chains(chains, header, less, R)
    ensures forall k :: 0 <= k < |chains[0]| ==> chains[0][k] in R
  {
    assert Chain(chains[0], 0, less, R);
  }

  lemma KeyOnce<V(0)>(chains: seq<seq<Node<V>>>, header: Node<V>, less: bool, R: set<Node<V>>, k: nat)
    requires Chains(chains, header, less, R) && 1 <= k < |chains[0]|
    ensures forall j :: 1 <= j < |chains[0]| && chains[0][j].key == chains[0][k].key ==> j == k
  {
    assert Chain(chains[0], 0, less, R);
  }

  lemma ChainsMore<V(0)>(chains: seq<seq<Node<V>>>, header: Node<V>, less: bool, R: set<Node<V>>, R': set<Node<V>>)
    requires Chains(chains, header, less, R) && R <= R'
    ensures Chains(chains, header, less, R')
  {
    hide Sorted, HeadOnce;
    forall i | 0 <= i <= MAX_LEVEL ensures Chain(chains[i], i, less, R') {
      assert Chain(chains[i], i, less, R);
    }
  }

  /** A new value in a node changes no list. */
  method SetValue<V(0)>(node: Node<V>, value: V, ghost chains: seq<seq<Node<V>>>, ghost header: Node<V>, ghost less: bool,
                        ghost R: set<Node<V>>)
    requires Chains(chains, header, less, R)
    modifies node`value
    ensures Chains(chains, header, less, R) && node.value == value
  {
    hide Sorted, HeadOnce;
    node.value := value;
    forall i | 0 <= i <= MAX_LEVEL ensures Chain(chains[i], i, less, R) && chains[i][0] == header {
      assert old(Chain(chains[i], i, less, R));
    }
  }

  // ----- Taking a node out of one level -----

  ghost function Cut<V(0)>(c: seq<Node<V>>, u: nat): seq<Node<V>>
    requires u + 1 < |c|
  {
    c[..u + 1] + c[u + 2..]
  }

  lemma CutSorted<V(0)>(c: seq<Node<V>>, u: nat, less: bool)
    requires Sorted(c, less) && HeadOnce(c) && u + 1 < |c|
    ensures Sorted(Cut(c, u), less) && HeadOnce(Cut(c, u)) && c[u + 1] !in Cut(c, u)
  {
    forall k | 0 <= k < |c| ensures c[k] == c[u + 1] ==> k == u + 1 {
      Apart(c, less, k, u + 1);
    }
  }

  lemma CutElements<V(0)>(c: seq<Node<V>>, u: nat, n: Node<V>)
    requires u + 1 < |c| && n != c[u + 1]
    ensures n in Cut(c, u) <==> n in c
  {
    assert c == c[..u + 1] + [c[u + 1]] + c[u + 2..];
  }

  /** The assignment that bypasses a node at one level, and what it makes of the list. */
  method Bypass<V(0)>(prev: Node<V>, node: Node<V>, i: nat, ghost chains: seq<seq<Node<V>>>, ghost c: seq<Node<V>>,
                      ghost u: nat, ghost less: bool, ghost R: set<Node<V>>)
    requires i <= MAX_LEVEL && Chain(c, i, less, R) && u + 1 < |c| && prev == c[u] && node == c[u + 1]
    modifies prev`forward
    ensures Members(Cut(c, u), i, R) && Links(Cut(c, u), i, R)
    ensures forall j :: 0 <= j <= MAX_LEVEL && j != i && j < |chains| && old(Chain(chains[j], j, less, R)) ==> Chain(chains[j], j, less, R)
  {
    hide Sorted, HeadOnce;
    forall k | 0 <= k < |c| ensures c[k] == prev ==> k == u {
      Apart(c, less, k, u);
    }
    prev.forward := prev.forward[i := node.forward[i]];
  }

  method Unlink<V(0)>(prev: Node<V>, node: Node<V>, i: nat,
                      ghost chains: seq<seq<Node<V>>>, ghost u: nat, ghost header: Node<V>, ghost less: bool, ghost R: set<Node<V>>)
    requires Chains(chains, header, less, R) && i <= MAX_LEVEL && u + 1 < |chains[i]| && prev == chains[i][u] && node == chains[i][u + 1]
    modifies prev`forward
    ensures Chains(chains[i := Cut(chains[i], u)], header, less, R)
  {
    hide Sorted, HeadOnce, Members, Links;
    assert Chain(chains[i], i, less, R);
    CutSorted(chains[i], u, less);
    Bypass(prev, node, i, chains, chains[i], u, less, R);
    forall j | 0 <= j <= MAX_LEVEL && j != i ensures Chain(chains[j], j, less, R) && chains[j][0] == header {
      assert old(Chain(chains[j], j, less, R));
    }
  }

  /** The lists with the node taken out below level i. */
  ghost predicate Shrunk<V(0)>(was: seq<seq<Node<V>>>, slots: seq<nat>, node: Node<V>, i: nat, chains: seq<seq<Node<V>>>) {
    && |was| == |slots| == |chains| && i <= |was|
    && (forall j :: 0 <= j < i ==> slots[j] + 1 < |was[j]| && was[j][slots[j] + 1] == node)
    && (forall j :: 0 <= j < |was| ==> chains[j] == if j < i then Cut(was[j], slots[j]) else was[j])
  }

  lemma ShrunkNested<V(0)>(was: seq<seq<Node<V>>>, slots: seq<nat>, node: Node<V>, i: nat, chains: seq<seq<Node<V>>>)
    requires Nested(was) && Shrunk(was, slots, node, i, chains)
    requires forall j :: 0 <= j < |chains| ==> node !in chains[j]
    ensures Nested(chains)
  {
    hide Cut;
    forall a, b | 0 <= a < b < |chains| ensures Within(chains[b], chains[a]) {
      assert Within(was[b], was[a]);
      forall n | n in chains[b] ensures n in chains[a] {
        if b < i {
          CutElements(was[b], slots[b], n);
        }
        if a < i {
          CutElements(was[a], slots[a], n);
        }
      }
    }
  }

  lemma Stripped<V(0)>(was: seq<seq<Node<V>>>, slots: seq<nat>, node: Node<V>, i: nat, chains: seq<seq<Node<V>>>)
    requires Shrunk(was, slots, node, i, chains) && |was| > 0 && slots[0] + 1 < |was[0]| && was[0][slots[0] + 1] == node
    requires node !in chains[0]
    ensures i > 0
  {
  }

  /** A node that is missing at a level is missing above. */
  lemma AbsentAbove<V(0)>(chains: seq<seq<Node<V>>>, node: Node<V>, i: nat)
    requires Nested(chains) && (i < |chains| ==> node !in chains[i])
    ensures forall j :: i <= j < |chains| ==> node !in chains[j]
  {
    forall j | i < j < |chains| ensures node !in chains[j] {
      assert Within(chains[j], chains[i]);
    }
  }

  /** Where a node with the key can be at a level: right behind the last smaller one. */
  lemma AtSlot<V(0)>(c: seq<Node<V>>, u: nat, less: bool, node: Node<V>)
    requires Sorted(c, less) && Slot(c, u, less, node.key) && node != c[0]
    ensures node in c <==> NodeAt(c, u + 1) == node
  {
    if node in c {
      var k :| 0 <= k < |c| && c[k] == node;
      assert k == u + 1;
    }
  }

  lemma ChainHead<V(0)>(chains: seq<seq<Node<V>>>, header: Node<V>, less: bool, R: set<Node<V>>, i: nat)
    requires Chains(chains, header, less, R) && i <= MAX_LEVEL
    ensures chains[i] != []
  {
    assert Chain(chains[i], i, less, R);
  }

  lemma ChainFacts<V(0)>(chains: seq<seq<Node<V>>>, header: Node<V>, less: bool, R: set<Node<V>>, i: nat, k: nat)
    requires Chains(chains, header, less, R) && i <= MAX_LEVEL && k < |chains[i]|
    ensures chains[i][k] in R && |chains[i][k].forward| == MAX_LEVEL + 1 && chains[i][k].forward[i] == NodeAt(chains[i], k + 1)
    ensures Sorted(chains[i], less) && HeadOnce(chains[i]) && chains[i][0] == header
  {
    hide Sorted, HeadOnce;
    assert Chain(chains[i], i, less, R);
  }

  lemma NotHeader<V(0)>(chains: seq<seq<Node<V>>>, header: Node<V>, less: bool, R: set<Node<V>>, k: nat)
    requires Chains(chains, header, less, R) && 1 <= k < |chains[0]|
    ensures chains[0][k] != header
  {
    assert Chain(chains[0], 0, less, R);
  }

  /** Without the node, the lists do not need it as an owned object. */
  lemma ChainsLess<V(0)>(chains: seq<seq<Node<V>>>, header: Node<V>, less: bool, R: set<Node<V>>, node: Node<V>)
    requires Chains(chains, header, less, R) && forall j :: 0 <= j < |chains| ==> node !in chains[j]
    ensures Chains(chains, header, less, R - {node})
  {
    hide Sorted, HeadOnce;
    forall i | 0 <= i <= MAX_LEVEL ensures Chain(chains[i], i, less, R - {node}) {
      assert Chain(chains[i], i, less, R);
    }
  }

  /** The bottom list without an entry. */
  lemma CutMirrors<V(0)>(c: seq<Node<V>>, u: nat, m: map<int, V>, R: set<Node<V>>, less: bool)
    requires (forall k :: 0 <= k < |c| ==> c[k] in R) && u + 1 < |c| && Sorted(c, less) && HeadOnce(c)
    requires Mirrors(c, m, R)
    ensures forall k :: 0 <= k < |c| - 1 ==> Cut(c, u)[k] in R - {c[u + 1]}
    ensures Mirrors(Cut(c, u), m - {c[u + 1].key}, R - {c[u + 1]})
  {
    CutSorted(c, u, less);
    var d, m' := Cut(c, u), m - {c[u + 1].key};
    forall k | 0 <= k < |d| ensures d[k] in R - {c[u + 1]} && (k >= 1 ==> d[k].key in m' && m'[d[k].key] == d[k].value) {
      var b := if k <= u then k else k + 1;
      assert d[k] == c[b];
    }
    forall x | x in m' ensures exists k :: 1 <= k < |d| && d[k].key == x {
      var k :| 1 <= k < |c| && c[k].key == x;
      assert d[if k <= u then k else k - 1].key == x;
    }
  }

  /** `getRandomLevel`. */
  method RandomLevel(rnd: Random) returns (level: nat)
    requires Seed(rnd.seed)
    modifies rnd
    ensures Seed(rnd.seed) && 1 <= level < MAX_LEVEL
    ensures rnd.seed == RandomModule.Successor(old(rnd.seed)) && level == if rnd.seed % MAX_LEVEL == 0 then 1 else rnd.seed % MAX_LEVEL
  {
    level := rnd.Uniform(MAX_LEVEL);
    if level == 0 {
      level := 1;
    }
  }

  class SkipList<V(0)> {
    const less: bool
    const header: Node<V>
    var nodeCount: nat

    ghost var chains: seq<seq<Node<V>>>
    ghost var contents: map<int, V>
    ghost var Repr: set<Node<V>>

    ghost predicate Shape()
      reads this, Repr
    {
      Chains(chains, header, less, Repr) && Nested(chains)
    }

    ghost predicate Valid()
      reads this, Repr
    {
      Shape() && Mirrors(chains[0], contents, Repr) && nodeCount == |contents|
    }

    constructor (less: bool, v: V)
      ensures Valid() && fresh(Repr) && contents == map[] && this.less == less
    {
      this.less := less;
      var node := new Node(0, v, MAX_LEVEL);
      header := node;
      nodeCount := 0;
      chains, contents, Repr := seq(MAX_LEVEL + 1, _ => [node]), map[], {node};
    }

    /** The loop shared by `search`, `insert` and `remove`: at every level the last node before the key. */
    method Descend(key: int) returns (update: seq<Node<V>>, ghost slots: seq<nat>)
      requires Shape()
      ensures |update| == |slots| == MAX_LEVEL + 1
      ensures forall i :: 0 <= i <= MAX_LEVEL ==> Placed(i, update, slots, key)
    {
      hide Chain, Slot;
      var node := header;
      ghost var k: nat := 0;
      update, slots := seq(MAX_LEVEL + 1, _ => header), seq(MAX_LEVEL + 1, _ => 0);
      var i: int := MAX_LEVEL;
      ChainAt(MAX_LEVEL);
      while i >= 0
        invariant -1 <= i <= MAX_LEVEL && |update| == |slots| == MAX_LEVEL + 1
        invariant i >= 0 ==> k < |chains[i]| && node == chains[i][k] && (k > 0 ==> Before(less, node.key, key))
        invariant forall j :: i < j <= MAX_LEVEL ==> Placed(j, update, slots, key)
      {
        node, k := Walk(node, k, i, key);
        ghost var update0, slots0 := update, slots;
        update, slots := update[i := node], slots[i := k];
        assert forall j :: i < j <= MAX_LEVEL && Placed(j, update0, slots0, key) ==> Placed(j, update, slots, key);
        i := i - 1;
        if i >= 0 {
          k := Below(i, k);
        }
      }
    }

    /** `update[i]` is the last node before the key at level i. */
    ghost predicate Placed(i: nat, update: seq<Node<V>>, slots: seq<nat>, key: int)
      reads this
    {
      && i < |update| == |slots| == |chains| && Slot(chains[i], slots[i], less, key)
      && slots[i] < |chains[i]| && update[i] == chains[i][slots[i]]
    }

    /** One level of the descent. */
    method Walk(start: Node<V>, ghost from: nat, i: nat, key: int) returns (node: Node<V>, ghost k: nat)
      requires Shape() && i <= MAX_LEVEL && from < |chains[i]| && start == chains[i][from]
      requires from > 0 ==> Before(less, start.key, key)
      ensures Slot(chains[i], k, less, key) && k < |chains[i]| && node == chains[i][k]
      ensures k > 0 ==> Before(less, node.key, key)
    {
      hide Chain, Nested;
      node, k := start, from;
      ChainNode(i, k);
      while node.GetLevel(i) != null && Before(less, node.GetLevel(i).key, key)
        invariant k < |chains[i]| && node == chains[i][k] && (k > 0 ==> Before(less, node.key, key))
        invariant |node.forward| == MAX_LEVEL + 1 && node.GetLevel(i) == NodeAt(chains[i], k + 1)
        decreases |chains[i]| - k
      {
        node, k := node.GetLevel(i), k + 1;
        ChainNode(i, k);
      }
    }

    lemma ChainNode(i: nat, k: nat)
      requires Shape() && i <= MAX_LEVEL && k < |chains[i]|
      ensures
        var node := chains[i][k];
        node in Repr && |node.forward| == MAX_LEVEL + 1 && node.GetLevel(i) == NodeAt(chains[i], k + 1) == node.forward[i]
    {
      assert Chain(chains[i], i, less, Repr);
    }

    lemma ChainAt(i: nat)
      requires Shape() && i <= MAX_LEVEL
      ensures chains[i] != [] && chains[i][0] == header
    {
      assert Chain(chains[i], i, less, Repr);
    }

    /** The place of a node one level down. */
    lemma Below(i: nat, k: nat) returns (j: nat)
      requires Shape() && i < MAX_LEVEL && k < |chains[i + 1]|
      ensures j < |chains[i]| && chains[i][j] == chains[i + 1][k] && (j == 0 <==> k == 0)
    {
      assert Chain(chains[i], i, less, Repr) && Chain(chains[i + 1], i + 1, less, Repr);
      var n := chains[i + 1][k];
      assert n in chains[i + 1] && Within(chains[i + 1], chains[i]);
      j :| 0 <= j < |chains[i]| && chains[i][j] == n;
    }

    /** The node that follows all smaller keys at the bottom: the one with the key, if there is one. */
    lemma FoundAtBottom(u: nat, key: int)
      requires Valid() && Slot(chains[0], u, less, key)
      ensures
        var n := NodeAt(chains[0], u + 1);
        && (key in contents <==> n != null && n.key == key)
        && (n != null ==> n in Repr) && (key in contents ==> n.value == contents[key])
    {
      var c := chains[0];
      assert Chain(c, 0, less, Repr);
      if key in contents {
        var k :| 1 <= k < |c| && c[k].key == key;
        assert k == u + 1;
      }
    }

    /** `search` agrees with the map. */
    method Search(key: int) returns (r: Node?<V>)
      requires Valid()
      ensures r != null <==> key in contents
      ensures r != null ==> r in Repr && r.key == key && r.value == contents[key]
    {
      hide Chain, Slot, Mirrors;
      var update, slots := Descend(key);
      assert Placed(0, update, slots, key);
      ChainNode(0, slots[0]);
      FoundAtBottom(slots[0], key);
      r := update[0].forward[0];
      if r != null && r.key != key {
        r := null;
      }
    }

    /** `insert`, with any drawn level. */
    method Insert(key: int, value: V, level: nat) returns (r: Node<V>)
      requires Valid() && level <= MAX_LEVEL
      modifies this, Repr
      ensures Valid() && fresh(Repr - old(Repr)) && contents == old(contents)[key := value]
      ensures r in Repr && r.key == key && r.value == value
    {
      hide Chain, Slot, Mirrors, Gap, Nested;
      var update, slots := Descend(key);
      assert Placed(0, update, slots, key);
      ChainNode(0, slots[0]);
      FoundAtBottom(slots[0], key);
      var node := update[0].GetLevel(0);
      if node != null && node.key == key {
        Replace(node, slots[0] + 1, value);
        return node;
      }
      r := InsertNew(update, slots, key, value, level);
    }

    /** A node for a key that is not there yet. */
    method InsertNew(update: seq<Node<V>>, ghost slots: seq<nat>, key: int, value: V, level: nat) returns (r: Node<V>)
      requires Valid() && key !in contents && level <= MAX_LEVEL && |update| == MAX_LEVEL + 1
      requires forall i :: 0 <= i <= MAX_LEVEL ==> Placed(i, update, slots, key)
      modifies this, Repr
      ensures Valid() && fresh(Repr - old(Repr)) && contents == old(contents)[key := value]
      ensures r in Repr && r.key == key && r.value == value
    {
      hide Chain, Slot, Gap, Nested, Put;
      assert Placed(0, update, slots, key);
      forall i | 0 <= i <= MAX_LEVEL ensures Gap(chains[i], slots[i], less, key) {
        assert Placed(i, update, slots, key);
        NewKeyGap(i, slots[i], key);
      }
      AllOwned();
      r := new Node(key, value, level);
      ChainsMore(chains, header, less, Repr, Repr + {r});
      Repr := Repr + {r};
      forall i | 0 <= i <= MAX_LEVEL ensures Placed(i, update, slots, key) {
        assert old(Placed(i, update, slots, key));
      }
      ghost var was := chains;
      Thread(update, slots, r, level);
      GrownNested(was, slots, r, level, chains);
      PutMirrors(was[0], slots[0], r, contents, Repr);
      contents := contents[key := value];
      nodeCount := nodeCount + 1;
    }

    lemma AllOwned()
      requires Shape()
      ensures forall i, k :: 0 <= i <= MAX_LEVEL && 0 <= k < |chains[i]| ==> chains[i][k] in Repr
    {
      forall i, k | 0 <= i <= MAX_LEVEL && 0 <= k < |chains[i]| ensures chains[i][k] in Repr {
        ChainMember(chains, header, less, Repr, i, k);
      }
    }

    /** A key that is not in the map is at no level. */
    lemma NewKeyGap(i: nat, u: nat, key: int)
      requires Valid() && key !in contents && i <= MAX_LEVEL && Slot(chains[i], u, less, key)
      ensures Gap(chains[i], u, less, key)
    {
      if u + 1 < |chains[i]| {
        assert Chain(chains[i], i, less, Repr) && Chain(chains[0], 0, less, Repr);
        var n := chains[i][u + 1];
        assert n in chains[i] && (i > 0 ==> Within(chains[i], chains[0]));
        var k :| 0 <= k < |chains[0]| && chains[0][k] == n;
      }
    }

    /** The loop that puts the new node into the lists of its levels. */
    method Thread(update: seq<Node<V>>, ghost slots: seq<nat>, node: Node<V>, level: nat)
      requires Chains(chains, header, less, Repr) && node in Repr && level <= MAX_LEVEL && node.nodeLevel == level
      requires |update| == MAX_LEVEL + 1 && |node.forward| == MAX_LEVEL + 1
      requires forall i :: 0 <= i <= MAX_LEVEL ==> Placed(i, update, slots, node.key) && Gap(chains[i], slots[i], less, node.key)
      requires forall i :: 0 <= i <= MAX_LEVEL ==> node !in chains[i]
      modifies this`chains, Repr`forward
      ensures Chains(chains, header, less, Repr) && Grown(old(chains), slots, node, -1, level, chains)
    {
      hide Chain, Slot, Gap;
      assert Placed(0, update, slots, node.key);
      forall j | 0 <= j < |chains| ensures slots[j] < |chains[j]| && update[j] in Repr {
        assert Placed(j, update, slots, node.key);
        ChainMember(chains, header, less, Repr, j, slots[j]);
      }
      var i: int := level;
      while i >= 0
        invariant -1 <= i <= level && Chains(chains, header, less, Repr) && |node.forward| == MAX_LEVEL + 1
        invariant Grown(old(chains), slots, node, i, level, chains)
      {
        assert old(Placed(i, update, slots, node.key) && Gap(chains[i], slots[i], less, node.key));
        Link(update[i], node, i, chains, slots[i], header, less, Repr);
        chains := chains[i := Put(chains[i], slots[i], node)];
        i := i - 1;
      }
    }

    /** A new value for a key that is there. */
    method Replace(node: Node<V>, ghost k: nat, value: V)
      requires Valid() && 1 <= k < |chains[0]| && node == chains[0][k]
      modifies this`contents, node`value
      ensures Valid() && contents == old(contents)[node.key := value] && node.value == value
    {
      hide Chain, Nested;
      ChainMember(chains, header, less, Repr, 0, k);
      KeyOnce(chains, header, less, Repr, k);
      SetValue(node, value, chains, header, less, Repr);
      ChainMembers(chains, header, less, Repr);
      contents := contents[node.key := value];
    }

    /** `remove`, with the value that was stored. */
    method Remove(key: int) returns (r: Option<V>)
      requires Valid()
      modifies this, Repr`forward
      ensures Valid() && Repr <= old(Repr) && contents == old(contents) - {key}
      ensures r == if key in old(contents) then Some(old(contents[key])) else None
    {
      hide Chain, Slot, Mirrors, Nested;
      var update, slots := Descend(key);
      assert Placed(0, update, slots, key);
      ChainNode(0, slots[0]);
      FoundAtBottom(slots[0], key);
      var node := update[0].forward[0];
      if node == null || node.key != key {
        assert contents - {key} == contents;
        return None;
      }
      r := Some(node.value);
      Detach(update, slots, node, key);
    }

    /** Take the node out of every level it is on. */
    method Detach(update: seq<Node<V>>, ghost slots: seq<nat>, node: Node<V>, key: int)
      requires Valid() && |update| == |slots| == MAX_LEVEL + 1 && node.key == key && key in contents
      requires forall i :: 0 <= i <= MAX_LEVEL ==> Placed(i, update, slots, key)
      requires slots[0] + 1 < |chains[0]| && chains[0][slots[0] + 1] == node
      modifies this, Repr`forward
      ensures Valid() && Repr == old(Repr) - {node} && contents == old(contents) - {key}
    {
      hide Chain, Slot, Nested, Cut, Sorted, HeadOnce, Mirrors;
      ghost var was, bottom := chains, chains[0];
      ChainFacts(chains, header, less, Repr, 0, slots[0]);
      NotHeader(chains, header, less, Repr, slots[0] + 1);
      ghost var i := StripKept(update, slots, node);
      assert i > 0 by {
        Stripped(was, slots, node, i, chains);
      }
      ShrunkNested(was, slots, node, i, chains);
      ChainsLess(chains, header, less, Repr, node);
      CutMirrors(bottom, slots[0], contents, Repr, less);
      assert (contents - {key}).Keys == contents.Keys - {key};
      Repr := Repr - {node};
      contents := contents - {key};
      nodeCount := nodeCount - 1;
    }

    method StripKept(update: seq<Node<V>>, ghost slots: seq<nat>, node: Node<V>) returns (ghost levels: nat)
      requires Valid() && |update| == |slots| == MAX_LEVEL + 1 && node != header
      requires forall i :: 0 <= i <= MAX_LEVEL ==> Placed(i, update, slots, node.key)
      modifies this`chains, Repr`forward
      ensures Chains(chains, header, less, Repr) && Shrunk(old(chains), slots, node, levels, chains)
      ensures forall j :: 0 <= j <= MAX_LEVEL ==> node !in chains[j]
      ensures (forall k :: 0 <= k < |old(chains)[0]| ==> old(chains)[0][k] in Repr) && Mirrors(old(chains)[0], contents, Repr)
    {
      hide Chains, Slot, Nested, Shrunk, Placed;
      ChainMembers(chains, header, less, Repr);
      levels := Strip(update, slots, node);
    }

    /** The loop of `remove`, which stops at the first level without the node. */
    method Strip(update: seq<Node<V>>, ghost slots: seq<nat>, node: Node<V>) returns (ghost levels: nat)
      requires Shape() && |update| == |slots| == MAX_LEVEL + 1 && node != header
      requires forall i :: 0 <= i <= MAX_LEVEL ==> Placed(i, update, slots, node.key)
      modifies this`chains, Repr`forward
      ensures Chains(chains, header, less, Repr) && Shrunk(old(chains), slots, node, levels, chains)
      ensures forall j :: 0 <= j <= MAX_LEVEL ==> node !in chains[j]
    {
      hide Chain, Slot, Nested, Cut, Sorted, HeadOnce;
      ghost var was := chains;
      forall i | 0 <= i <= MAX_LEVEL
        ensures slots[i] < |was[i]| && update[i] == was[i][slots[i]] && update[i] in Repr
        ensures node in was[i] <==> NodeAt(was[i], slots[i] + 1) == node
      {
        assert Placed(i, update, slots, node.key);
        ChainFacts(chains, header, less, Repr, i, slots[i]);
        AtSlot(chains[i], slots[i], less, node);
      }
      var i: nat := 0;
      while i <= MAX_LEVEL
        invariant i <= MAX_LEVEL + 1 && Chains(chains, header, less, Repr) && Shrunk(was, slots, node, i, chains)
        invariant forall j :: 0 <= j < i ==> node !in chains[j]
      {
        ChainFacts(chains, header, less, Repr, i, slots[i]);
        if update[i].forward[i] != node {
          break;
        }
        CutSorted(chains[i], slots[i], less);
        Unlink(update[i], node, i, chains, slots[i], header, less, Repr);
        chains := chains[i := Cut(chains[i], slots[i])];
        i := i + 1;
      }
      AbsentAbove(was, node, i);
      levels := i;
    }

    /** Every level is a sorted sublist of each level below: the same nodes occur there, in the same order. */
    lemma LevelsAreSublists(i: nat, j: nat, a: nat, b: nat)
      requires Valid() && i < j <= MAX_LEVEL && 1 <= a < b < |chains[j]|
      ensures Before(less, chains[j][a].key, chains[j][b].key)
      ensures exists p, q :: 1 <= p < q < |chains[i]| && chains[i][p] == chains[j][a] && chains[i][q] == chains[j][b]
    {
      hide Chain, Sorted, HeadOnce, Mirrors;
      ChainHead(chains, header, less, Repr, i);
      ChainFacts(chains, header, less, Repr, i, 0);
      ChainFacts(chains, header, less, Repr, j, 0);
      assert Within(chains[j], chains[i]);
      SortedSublist(chains[i], chains[j], less, a, b);
    }
  }

  lemma SortedSublist<V(0)>(c: seq<Node<V>>, d: seq<Node<V>>, less: bool, a: nat, b: nat)
    requires Sorted(c, less) && Sorted(d, less) && HeadOnce(d) && Within(d, c) && 1 <= a < b < |d| && c != [] && c[0] == d[0]
    ensures Before(less, d[a].key, d[b].key)
    ensures exists p, q :: 1 <= p < q < |c| && c[p] == d[a] && c[q] == d[b]
  {
    assert d[a] in d && d[b] in d;
    var p :| 0 <= p < |c| && c[p] == d[a];
    var q :| 0 <= q < |c| && c[q] == d[b];
    assert p < q;
  }
}
