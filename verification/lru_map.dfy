/** The least-recently-used cache of star/ds/lru_map.h. */
module LruMapModule {
  import opened Options

  /** `order` lists the keys from oldest to newest. */
  datatype Cache<K(==), V> = Cache(capacity: nat, values: map<K, V>, order: seq<K>)

  datatype Op<K, V> = Set(key: K, value: V) | Get(key: K) | Remove(key: K)

  /** The list without a key. */
  function Drop<K(==)>(s: seq<K>, k: K): seq<K> {
    if s == [] then [] else if s[0] == k then Drop(s[1..], k) else [s[0]] + Drop(s[1..], k)
  }

  function SetIn<K, V>(c: Cache<K, V>, k: K, v: V): Cache<K, V> {
    if k in c.values then c.(values := c.values[k := v], order := Drop(c.order, k) + [k])
    else if |c.values| >= c.capacity && c.order != [] then
      c.(values := (c.values - {c.order[0]})[k := v], order := c.order[1..] + [k])
    else c.(values := c.values[k := v], order := c.order + [k])
  }

  function GetIn<K, V>(c: Cache<K, V>, k: K): (Cache<K, V>, Option<V>) {
    if k in c.values then (c.(order := Drop(c.order, k) + [k]), Some(c.values[k])) else (c, None)
  }

  function RemoveIn<K, V>(c: Cache<K, V>, k: K): Cache<K, V> {
    if k in c.values then c.(values := c.values - {k}, order := Drop(c.order, k)) else c
  }

  function Apply<K, V>(c: Cache<K, V>, op: Op<K, V>): Cache<K, V> {
    match op
    case Set(k, v) => SetIn(c, k, v)
    case Get(k) => GetIn(c, k).0
    case Remove(k) => RemoveIn(c, k)
  }

  function ApplyAll<K, V>(c: Cache<K, V>, ops: seq<Op<K, V>>): Cache<K, V>
    decreases |ops|
  {
    if ops == [] then c else ApplyAll(Apply(c, ops[0]), ops[1..])
  }

  function Empty<K, V>(capacity: nat): Cache<K, V> { Cache(capacity, map[], []) }

  // ----- The list and the map -----

  ghost predicate Distinct<K>(s: seq<K>) {
    s == [] || (s[0] !in s[1..] && Distinct(s[1..]))
  }

  ghost function Elements<K>(s: seq<K>): set<K> { set k | k in s }

  /** List and map hold the same keys, each once, and no more than the capacity. */
  ghost predicate Valid<K, V>(c: Cache<K, V>) {
    c.capacity > 0 && Distinct(c.order) && |c.order| <= c.capacity && c.values.Keys == Elements(c.order)
  }

  lemma {:induction false} DistinctSize<K>(s: seq<K>)
    requires Distinct(s)
    ensures |Elements(s)| == |s|
  {
    if s != [] {
      DistinctSize(s[1..]);
      assert Elements(s) == Elements(s[1..]) + {s[0]};
    }
  }

  lemma {:induction false} DropMember<K>(s: seq<K>, k: K, x: K)
    ensures x in Drop(s, k) <==> x in s && x != k
  {
    if s != [] {
      DropMember(s[1..], k, x);
      assert x in s <==> x == s[0] || x in s[1..];
    }
  }

  lemma {:induction false} DropDistinct<K>(s: seq<K>, k: K)
    requires Distinct(s)
    ensures Distinct(Drop(s, k)) && |Drop(s, k)| == |s| - if k in s then 1 else 0
    ensures k !in s ==> Drop(s, k) == s
  {
    if s != [] {
      DropDistinct(s[1..], k);
      DropMember(s[1..], k, s[0]);
      assert k in s <==> k == s[0] || k in s[1..];
      if s[0] != k {
        var t := Drop(s[1..], k);
        assert ([s[0]] + t)[1..] == t;
      }
    }
  }

  lemma {:induction false} DropElements<K>(s: seq<K>, k: K)
    ensures Elements(Drop(s, k)) == Elements(s) - {k}
  {
    if s != [] {
      DropElements(s[1..], k);
      assert Elements(s) == Elements(s[1..]) + {s[0]};
      var t := Drop(s[1..], k);
      assert Elements([s[0]] + t) == Elements(t) + {s[0]};
    }
  }

  lemma {:induction false} DropAppend<K>(s: seq<K>, t: seq<K>, k: K)
    ensures Drop(s + t, k) == Drop(s, k) + Drop(t, k)
  {
    if s == [] {
      assert s + t == t;
    } else {
      var x, rest := s[0], s[1..];
      DropAppend(rest, t, k);
      DropCons(x, rest + t, k);
      DropCons(x, rest, k);
      assert s == [x] + rest;
      Reassociate([x], rest, t);
      Reassociate([x], Drop(rest, k), Drop(t, k));
    }
  }

  lemma Reassociate<K>(a: seq<K>, b: seq<K>, c: seq<K>)
    ensures (a + b) + c == a + (b + c)
  {
  }

  lemma {:induction false} DropSwap<K>(s: seq<K>, a: K, b: K)
    ensures Drop(Drop(s, a), b) == Drop(Drop(s, b), a)
  {
    if s != [] {
      DropSwap(s[1..], a, b);
      DropCons(s[0], Drop(s[1..], a), b);
      DropCons(s[0], Drop(s[1..], b), a);
    }
  }

  lemma DropCons<K>(x: K, s: seq<K>, k: K)
    ensures Drop([x] + s, k) == if x == k then Drop(s, k) else [x] + Drop(s, k)
  {
    assert ([x] + s)[1..] == s;
  }

  lemma {:induction false} AppendDistinct<K>(s: seq<K>, k: K)
    requires Distinct(s) && k !in s
    ensures Distinct(s + [k]) && Elements(s + [k]) == Elements(s) + {k}
  {
    if s != [] {
      AppendDistinct(s[1..], k);
      assert (s + [k])[1..] == s[1..] + [k];
    }
  }

  /** A key moves to the end of the list. */
  lemma TouchDistinct<K>(s: seq<K>, k: K)
    requires Distinct(s)
    ensures Distinct(Drop(s, k) + [k]) && Elements(Drop(s, k) + [k]) == Elements(s) + {k}
    ensures |Drop(s, k) + [k]| == |s| + if k in s then 0 else 1
  {
    DropDistinct(s, k);
    DropMember(s, k, k);
    DropElements(s, k);
    AppendDistinct(Drop(s, k), k);
  }

  lemma TailDistinct<K>(s: seq<K>)
    requires Distinct(s) && s != []
    ensures Distinct(s[1..]) && Elements(s[1..]) == Elements(s) - {s[0]} && s[1..] == Drop(s, s[0])
  {
    DropDistinct(s, s[0]);
    DropElements(s, s[0]);
    DropDistinct(s[1..], s[0]);
  }

  lemma SameSize<K, V>(c: Cache<K, V>)
    requires Valid(c)
    ensures |c.values| == |c.order|
  {
    DistinctSize(c.order);
    assert |c.values| == |c.values.Keys|;
  }

  /** Putting a new key in place of the oldest one. */
  lemma EvictValid<K, V>(c: Cache<K, V>, k: K, v: V)
    requires Valid(c) && k !in c.order && c.order != []
    ensures Valid(c.(values := (c.values - {c.order[0]})[k := v], order := c.order[1..] + [k]))
  {
    hide Distinct, Drop, Elements;
    TailDistinct(c.order);
    AppendDistinct(c.order[1..], k);
    assert (c.values - {c.order[0]}).Keys == c.values.Keys - {c.order[0]};
  }

  lemma SetValid<K, V>(c: Cache<K, V>, k: K, v: V)
    requires Valid(c)
    ensures Valid(SetIn(c, k, v))
  {
    hide Distinct, Drop, Elements;
    SameSize(c);
    KeyListed(c, k);
    if k !in c.order && |c.order| == c.capacity {
      EvictValid(c, k, v);
    } else {
      TouchDistinct(c.order, k);
      DropDistinct(c.order, k);
    }
  }

  lemma KeyListed<K, V>(c: Cache<K, V>, k: K)
    requires Valid(c)
    ensures k in c.values <==> k in c.order
  {
    assert k in c.values <==> k in c.values.Keys;
  }

  lemma ApplyValid<K, V>(c: Cache<K, V>, op: Op<K, V>)
    requires Valid(c)
    ensures Valid(Apply(c, op))
  {
    hide Distinct, Drop, Elements;
    var k := op.key;
    TouchDistinct(c.order, k);
    DropDistinct(c.order, k);
    DropElements(c.order, k);
    KeyListed(c, k);
    match op
    case Set(_, v) => SetValid(c, k, v);
    case Get(_) =>
    case Remove(_) => assert (c.values - {k}).Keys == c.values.Keys - {k};
  }

  // ----- Inclusion -----

  /** The longer list is the shorter one with at most one further key. */
  ghost predicate Longer<K>(big: seq<K>, small: seq<K>, extra: Option<K>) {
    match extra
    case None => small == big
    case Some(x) => x in big && small == Drop(big, x)
  }

  ghost predicate Agree<K, V>(big: map<K, V>, small: map<K, V>) {
    forall k :: k in small ==> k in big && big[k] == small[k]
  }

  /** The larger cache holds the same entries in the same order, but for at most one further key. */
  ghost predicate Includes<K, V>(big: Cache<K, V>, small: Cache<K, V>, extra: Option<K>) {
    && Valid(big) && Valid(small) && big.capacity == small.capacity + 1
    && Longer(big.order, small.order, extra) && Agree(big.values, small.values)
  }

  lemma LongerFacts<K>(big: seq<K>, small: seq<K>, extra: Option<K>, k: K)
    requires Longer(big, small, extra) && Distinct(big)
    ensures k in small <==> k in big && extra != Some(k)
    ensures |big| == |small| + if extra == None then 0 else 1
    ensures extra.Some? ==> extra.value in big
  {
    if extra.Some? {
      DropMember(big, extra.value, k);
      DropDistinct(big, extra.value);
    }
  }

  /** Moving a key to the end of both lists. */
  lemma LongerTouch<K>(big: seq<K>, small: seq<K>, extra: Option<K>, k: K)
    requires Longer(big, small, extra) && extra != Some(k)
    ensures Longer(Drop(big, k) + [k], Drop(small, k) + [k], extra)
  {
    if extra.Some? {
      var x := extra.value;
      DropMember(big, k, x);
      DropAppend(Drop(big, k), [k], x);
      DropSwap(big, k, x);
    }
  }

  /** Moving the further key to the end of the longer list. */
  lemma LongerTouchExtra<K>(big: seq<K>, small: seq<K>, x: K)
    requires Longer(big, small, Some(x))
    ensures Longer(Drop(big, x) + [x], small, Some(x))
  {
    DropTwice(big, x);
    DropAppend(Drop(big, x), [x], x);
  }

  lemma {:induction false} DropTwice<K>(s: seq<K>, k: K)
    ensures Drop(Drop(s, k), k) == Drop(s, k)
  {
    if s != [] {
      DropTwice(s[1..], k);
      DropCons(s[0], Drop(s[1..], k), k);
    }
  }

  /** Removing a key from both lists. */
  lemma LongerDrop<K>(big: seq<K>, small: seq<K>, extra: Option<K>, k: K)
    requires Longer(big, small, extra)
    ensures Longer(Drop(big, k), Drop(small, k), if extra == Some(k) then None else extra)
  {
    if extra.Some? {
      DropMember(big, k, extra.value);
      DropSwap(big, k, extra.value);
      DropTwice(big, extra.value);
    }
  }

  /** A new key enters both full lists, and the oldest of each leaves. */
  lemma LongerEvict<K>(big: seq<K>, small: seq<K>, x: K, k: K)
    requires Longer(big, small, Some(x)) && Distinct(big) && small != [] && k !in big
    ensures Longer(big[1..] + [k], small[1..] + [k], Some(if big[0] == x then small[0] else x))
  {
    DropCons(big[0], big[1..], x);
    assert [big[0]] + big[1..] == big;
    if big[0] == x {
      TailDistinct(big);
      DropAppend(small, [k], small[0]);
      TailDistinct(small);
    } else {
      DropAppend(big[1..], [k], x);
      assert [k][1..] == [];
    }
  }

  /** A new key enters both lists, and only the shorter one is full. */
  lemma LongerEvictOne<K>(s: seq<K>, k: K)
    requires Distinct(s) && s != [] && k !in s
    ensures Longer(s + [k], s[1..] + [k], Some(s[0]))
  {
    TailDistinct(s);
    DropAppend(s, [k], s[0]);
  }

  lemma {:induction false} LongerAppend<K>(big: seq<K>, small: seq<K>, extra: Option<K>, k: K)
    requires Longer(big, small, extra) && k !in big
    ensures Longer(big + [k], small + [k], extra)
  {
    if extra.Some? {
      DropAppend(big, [k], extra.value);
    }
  }

  /** The further key after an operation. */
  ghost function Extra<K, V>(big: Cache<K, V>, small: Cache<K, V>, extra: Option<K>, op: Op<K, V>): Option<K> {
    match op
    case Get(_) => extra
    case Remove(k) => if extra == Some(k) then None else extra
    case Set(k, _) =>
      if k in small.order || |small.order| < small.capacity || small.order == [] then (if extra == Some(k) then None else extra)
      else if extra.Some? && extra != Some(k) && Oldest(big.order) != [extra.value] then extra
      else Some(small.order[0])
  }

  ghost function Oldest<K>(s: seq<K>): seq<K> { if s == [] then [] else [s[0]] }

  lemma GetIncludes<K, V>(big: Cache<K, V>, small: Cache<K, V>, extra: Option<K>, k: K)
    requires Includes(big, small, extra)
    ensures Includes(GetIn(big, k).0, GetIn(small, k).0, extra)
  {
    hide Distinct, Drop, Elements, Longer;
    ApplyValid(big, Get(k));
    ApplyValid(small, Get(k));
    KeyListed(big, k);
    KeyListed(small, k);
    LongerFacts(big.order, small.order, extra, k);
    if k in small.order {
      LongerTouch(big.order, small.order, extra, k);
    } else if k in big.order {
      LongerTouchExtra(big.order, small.order, k);
    }
  }

  lemma RemoveIncludes<K, V>(big: Cache<K, V>, small: Cache<K, V>, extra: Option<K>, k: K)
    requires Includes(big, small, extra)
    ensures Includes(RemoveIn(big, k), RemoveIn(small, k), Extra(big, small, extra, Remove(k)))
  {
    hide Distinct, Drop, Elements, Longer;
    ApplyValid(big, Remove(k));
    ApplyValid(small, Remove(k));
    KeyListed(big, k);
    KeyListed(small, k);
    LongerFacts(big.order, small.order, extra, k);
    LongerDrop(big.order, small.order, extra, k);
    DropDistinct(big.order, k);
    DropDistinct(small.order, k);
  }

  /** The lists after `set`. */
  lemma SetLonger<K, V>(big: Cache<K, V>, small: Cache<K, V>, extra: Option<K>, k: K, v: V)
    requires Includes(big, small, extra)
    ensures Longer(SetIn(big, k, v).order, SetIn(small, k, v).order, Extra(big, small, extra, Set(k, v)))
  {
    hide Distinct, Drop, Elements, Longer;
    SameSize(big);
    SameSize(small);
    KeyListed(big, k);
    KeyListed(small, k);
    LongerFacts(big.order, small.order, extra, k);
    if k in small.order {
      LongerTouch(big.order, small.order, extra, k);
    } else if k in big.order {
      LongerIsDrop(big.order, small.order, k);
      if |small.order| == small.capacity {
        LongerEvictOne(small.order, k);
      }
      LongerSelf(small.order + [k]);
    } else if |small.order| < small.capacity {
      LongerAppend(big.order, small.order, extra, k);
    } else if extra.Some? {
      LongerEvict(big.order, small.order, extra.value, k);
    } else {
      LongerIsSame(big.order, small.order);
      LongerEvictOne(small.order, k);
    }
  }

  lemma LongerIsDrop<K>(big: seq<K>, small: seq<K>, k: K)
    requires Longer(big, small, Some(k))
    ensures Drop(big, k) == small
  {
  }

  lemma LongerIsSame<K>(big: seq<K>, small: seq<K>)
    requires Longer(big, small, None)
    ensures big == small
  {
  }

  lemma LongerSelf<K>(s: seq<K>)
    ensures Longer(s, s, None)
  {
  }

  lemma SetIncludes<K, V>(big: Cache<K, V>, small: Cache<K, V>, extra: Option<K>, k: K, v: V)
    requires Includes(big, small, extra)
    ensures Includes(SetIn(big, k, v), SetIn(small, k, v), Extra(big, small, extra, Set(k, v)))
  {
    hide Distinct, Drop, Elements, Longer;
    SetValid(big, k, v);
    SetValid(small, k, v);
    SetLonger(big, small, extra, k, v);
    var b, s := SetIn(big, k, v), SetIn(small, k, v);
    forall x | x in s.values ensures x in b.values && b.values[x] == s.values[x] {
      KeyListed(b, x);
      KeyListed(s, x);
      LongerFacts(b.order, s.order, Extra(big, small, extra, Set(k, v)), x);
    }
  }

  lemma {:induction false} RunIncludes<K, V>(big: Cache<K, V>, small: Cache<K, V>, extra: Option<K>, ops: seq<Op<K, V>>) returns (extra': Option<K>)
    requires Includes(big, small, extra)
    ensures Includes(ApplyAll(big, ops), ApplyAll(small, ops), extra')
    decreases |ops|
  {
    hide Includes;
    extra' := extra;
    if ops != [] {
      match ops[0] {
        case Get(k) => GetIncludes(big, small, extra, k);
        case Remove(k) => RemoveIncludes(big, small, extra, k);
        case Set(k, v) => SetIncludes(big, small, extra, k, v);
      }
      extra' := RunIncludes(Apply(big, ops[0]), Apply(small, ops[0]), Extra(big, small, extra, ops[0]), ops[1..]);
    }
  }

  /**
   After the same operations, a cache with one more slot holds every entry of the smaller one with
   the same value, and its recency list is the smaller one's with at most one further key.
   */
  lemma OneMoreSlot<K, V>(capacity: nat, ops: seq<Op<K, V>>) returns (extra: Option<K>)
    requires capacity > 0
    ensures Includes(ApplyAll<K, V>(Empty(capacity + 1), ops), ApplyAll(Empty(capacity), ops), extra)
  {
    extra := RunIncludes<K, V>(Empty(capacity + 1), Empty(capacity), None, ops);
  }

  /** A larger cache never holds less. */
  lemma {:induction false} LargerHoldsMore<K, V>(c: nat, d: nat, ops: seq<Op<K, V>>)
    requires 0 < c <= d
    ensures Agree(ApplyAll<K, V>(Empty(d), ops).values, ApplyAll(Empty(c), ops).values)
    decreases d - c
  {
    if c < d {
      LargerHoldsMore(c, d - 1, ops);
      var extra := RunIncludes<K, V>(Empty(d), Empty(d - 1), None, ops);
    }
  }

  // ----- What `get` returns -----

  /** The keys that the operations set or get. */
  ghost function Touched<K, V>(ops: seq<Op<K, V>>): set<K> {
    set i | 0 <= i < |ops| && !ops[i].Remove? :: ops[i].key
  }

  /** The key is there with its value, and only these keys are newer. */
  ghost predicate KeptSince<K, V>(c: Cache<K, V>, k: K, v: V, newer: set<K>, a: seq<K>, b: seq<K>) {
    && Valid(c) && k in c.values && c.values[k] == v
    && c.order == a + [k] + b && Elements(b) <= newer && k !in newer
  }

  lemma SplitDistinct<K>(a: seq<K>, k: K, b: seq<K>)
    requires Distinct(a + [k] + b)
    ensures k !in a && k !in b && Distinct(b)
    decreases |a|
  {
    var s := a + [k] + b;
    if a == [] {
      assert s[1..] == b;
    } else {
      assert s[1..] == a[1..] + [k] + b;
      SplitDistinct(a[1..], k, b);
      assert k in s[1..];
    }
  }

  lemma DropSplit<K>(a: seq<K>, k: K, b: seq<K>, x: K)
    requires x != k
    ensures Drop(a + [k] + b, x) == Drop(a, x) + [k] + Drop(b, x)
  {
    hide Drop;
    DropAppend(a + [k], b, x);
    DropAppend(a, [k], x);
    DropCons(k, [], x);
    assert [k] + [] == [k];
    DropNothing(x);
  }

  lemma DropNothing<K>(x: K)
    ensures Drop([], x) == []
  {
  }

  lemma ElementsAppend<K>(s: seq<K>, x: K)
    ensures Elements(s + [x]) == Elements(s) + {x}
  {
  }

  /** Moving another key to the end, or removing it. */
  lemma TouchKeeps<K, V>(c: Cache<K, V>, k: K, v: V, newer: set<K>, a: seq<K>, b: seq<K>, x: K)
    requires KeptSince(c, k, v, newer, a, b) && x != k
    ensures Drop(c.order, x) == Drop(a, x) + [k] + Drop(b, x) && Elements(Drop(b, x)) <= newer
    ensures Drop(c.order, x) + [x] == Drop(a, x) + [k] + (Drop(b, x) + [x]) && Elements(Drop(b, x) + [x]) <= newer + {x}
  {
    hide Drop, Valid;
    DropSplit(a, k, b, x);
    DropElements(b, x);
    ElementsAppend(Drop(b, x), x);
  }

  /** A full cache in which fewer keys are newer than there are slots does not evict the key. */
  lemma NotEvicted<K, V>(c: Cache<K, V>, k: K, v: V, newer: set<K>, a: seq<K>, b: seq<K>, x: K)
    requires KeptSince(c, k, v, newer, a, b) && x !in c.order && |c.order| == c.capacity && |newer + {x}| < c.capacity
    ensures a != []
  {
    SplitDistinct(a, k, b);
    DistinctSize(b);
    if a == [] {
      assert x !in Elements(b) by { assert c.order == [k] + b; }
      SubsetSize(Elements(b) + {x}, newer + {x});
    }
  }

  lemma SubsetSize<K>(a: set<K>, b: set<K>)
    requires a <= b
    ensures |a| <= |b|
  {
    assert b == a + (b - a);
  }

  lemma SetKeeps<K, V>(c: Cache<K, V>, k: K, v: V, newer: set<K>, a: seq<K>, b: seq<K>, x: K, w: V) returns (a': seq<K>, b': seq<K>)
    requires KeptSince(c, k, v, newer, a, b) && x != k && |newer + {x}| < c.capacity
    ensures KeptSince(SetIn(c, x, w), k, v, newer + {x}, a', b')
  {
    hide Drop, Distinct, Elements;
    SetValid(c, x, w);
    SameSize(c);
    KeyListed(c, x);
    if x in c.order {
      TouchKeeps(c, k, v, newer, a, b, x);
      a', b' := Drop(a, x), Drop(b, x) + [x];
    } else {
      ElementsAppend(b, x);
      a', b' := a, b + [x];
      if |c.order| == c.capacity {
        NotEvicted(c, k, v, newer, a, b, x);
        SplitDistinct(a, k, b);
        a' := a[1..];
        assert c.order[0] == a[0] && c.order[1..] == a[1..] + [k] + b;
      }
      assert SetIn(c, x, w).order == a' + [k] + b';
    }
  }

  lemma GetKeeps<K, V>(c: Cache<K, V>, k: K, v: V, newer: set<K>, a: seq<K>, b: seq<K>, x: K) returns (a': seq<K>, b': seq<K>)
    requires KeptSince(c, k, v, newer, a, b)
    ensures KeptSince(GetIn(c, x).0, k, v, if x == k then newer else newer + {x}, a', b')
  {
    hide Drop, Distinct;
    ApplyValid(c, Get(x));
    KeyListed(c, x);
    a', b' := a, b;
    if x == k {
      a', b' := Drop(c.order, k), [];
      assert Drop(c.order, k) + [k] + [] == Drop(c.order, k) + [k];
    } else if x in c.order {
      TouchKeeps(c, k, v, newer, a, b, x);
      a', b' := Drop(a, x), Drop(b, x) + [x];
    }
  }

  lemma RemoveKeeps<K, V>(c: Cache<K, V>, k: K, v: V, newer: set<K>, a: seq<K>, b: seq<K>, x: K) returns (a': seq<K>, b': seq<K>)
    requires KeptSince(c, k, v, newer, a, b) && x != k
    ensures KeptSince(RemoveIn(c, x), k, v, newer, a', b')
  {
    hide Drop, Distinct, Elements;
    ApplyValid(c, Remove(x));
    a', b' := a, b;
    if x in c.values {
      TouchKeeps(c, k, v, newer, a, b, x);
      a', b' := Drop(a, x), Drop(b, x);
    }
  }

  lemma TouchedStep<K, V>(ops: seq<Op<K, V>>)
    requires ops != []
    ensures Touched(ops) == (if ops[0].Remove? then {} else {ops[0].key}) + Touched(ops[1..])
  {
    var rest := ops[1..];
    assert forall i :: 0 <= i < |rest| ==> rest[i] == ops[i + 1];
    forall x | x in Touched(ops) ensures x in (if ops[0].Remove? then {} else {ops[0].key}) + Touched(rest) {
      var i :| 0 <= i < |ops| && !ops[i].Remove? && ops[i].key == x;
      assert i > 0 ==> rest[i - 1] == ops[i];
    }
  }

  lemma CapacityFixed<K, V>(c: Cache<K, V>, op: Op<K, V>)
    ensures Apply(c, op).capacity == c.capacity
  {
  }

  /** The key stays as long as fewer others than there are slots are set or got. */
  lemma {:induction false} RunKeeps<K, V>(c: Cache<K, V>, k: K, v: V, newer: set<K>, a: seq<K>, b: seq<K>, ops: seq<Op<K, V>>)
    requires KeptSince(c, k, v, newer, a, b) && (forall i :: 0 <= i < |ops| ==> ops[i].key != k || ops[i].Get?)
    requires |newer + (Touched(ops) - {k})| < c.capacity
    ensures k in ApplyAll(c, ops).values && ApplyAll(c, ops).values[k] == v
    decreases |ops|
  {
    hide KeptSince, Touched, Apply;
    if ops == [] {
      KeptValue(c, k, v, newer, a, b);
    } else {
      var op, x := ops[0], ops[0].key;
      TouchedStep(ops);
      CapacityFixed(c, op);
      var newer' := if op.Remove? || x == k then newer else newer + {x};
      SubsetSize(newer', newer + (Touched(ops) - {k}));
      SubsetSize(newer' + (Touched(ops[1..]) - {k}), newer + (Touched(ops) - {k}));
      var a', b' := OpKeeps(c, k, v, newer, a, b, op);
      RunKeeps(Apply(c, op), k, v, newer', a', b', ops[1..]);
    }
  }

  lemma KeptValue<K, V>(c: Cache<K, V>, k: K, v: V, newer: set<K>, a: seq<K>, b: seq<K>)
    requires KeptSince(c, k, v, newer, a, b)
    ensures k in c.values && c.values[k] == v
  {
  }

  lemma OpKeeps<K, V>(c: Cache<K, V>, k: K, v: V, newer: set<K>, a: seq<K>, b: seq<K>, op: Op<K, V>) returns (a': seq<K>, b': seq<K>)
    requires KeptSince(c, k, v, newer, a, b) && (op.key != k || op.Get?)
    requires op.Remove? || op.key == k || |newer + {op.key}| < c.capacity
    ensures KeptSince(Apply(c, op), k, v, if op.Remove? || op.key == k then newer else newer + {op.key}, a', b')
  {
    hide KeptSince;
    match op
    case Set(x, w) => a', b' := SetKeeps(c, k, v, newer, a, b, x, w);
    case Get(x) => a', b' := GetKeeps(c, k, v, newer, a, b, x);
    case Remove(x) => a', b' := RemoveKeeps(c, k, v, newer, a, b, x);
  }

  /**
   After `set(k, v)` and operations that neither set nor remove k and set or get fewer other keys than the
   cache has slots, `get(k)` returns v.
   */
  lemma GetReturnsLastSet<K, V>(c: Cache<K, V>, k: K, v: V, ops: seq<Op<K, V>>)
    requires Valid(c) && (forall i :: 0 <= i < |ops| ==> ops[i].key != k || ops[i].Get?)
    requires |Touched(ops) - {k}| < c.capacity
    ensures GetIn(ApplyAll(SetIn(c, k, v), ops), k).1 == Some(v)
  {
    hide KeptSince, Touched, SetIn, Valid;
    var init := JustSet(c, k, v);
    assert {} + (Touched(ops) - {k}) == Touched(ops) - {k};
    RunKeeps(SetIn(c, k, v), k, v, {}, init, [], ops);
  }

  lemma JustSet<K, V>(c: Cache<K, V>, k: K, v: V) returns (init: seq<K>)
    requires Valid(c)
    ensures KeptSince(SetIn(c, k, v), k, v, {}, init, []) && SetIn(c, k, v).capacity == c.capacity
  {
    hide Drop, Distinct, Valid;
    SetValid(c, k, v);
    var d := SetIn(c, k, v);
    init := d.order[..|d.order| - 1];
    assert d.order == init + [k] + [];
  }

  /** A key that is not there gives nothing: after `remove`, and in an empty cache. */
  lemma GetMisses<K, V>(c: Cache<K, V>, k: K, capacity: nat)
    ensures GetIn(RemoveIn(c, k), k).1 == None && GetIn(Empty<K, V>(capacity), k).1 == None
  {
  }

  class LRUMap<K(==), V> {
    const capacity: nat
    var values: map<K, V>
    var order: seq<K>

    function Value(): Cache<K, V>
      reads this
    {
      Cache(capacity, values, order)
    }

    constructor (capacity: nat)
      requires capacity > 0
      ensures Value() == Empty(capacity) && Valid(Value())
    {
      this.capacity := capacity;
      values, order := map[], [];
    }

    method Set(k: K, v: V)
      requires Valid(Value())
      modifies this
      ensures Value() == SetIn(old(Value()), k, v) && Valid(Value())
    {
      SetValid(Value(), k, v);
      if k !in values {
        if |values| >= capacity {
          SameSize(Value());
          values := values - {order[0]};
          order := order[1..];
        }
      } else {
        order := Drop(order, k);
      }
      order := order + [k];
      values := values[k := v];
    }

    method Get(k: K) returns (r: Option<V>)
      requires Valid(Value())
      modifies this`order
      ensures (Value(), r) == GetIn(old(Value()), k) && Valid(Value())
    {
      ApplyValid(Value(), Op.Get(k));
      if k !in values {
        return None;
      }
      order := Drop(order, k);
      order := order + [k];
      r := Some(values[k]);
    }

    method Remove(k: K)
      requires Valid(Value())
      modifies this
      ensures Value() == RemoveIn(old(Value()), k) && Valid(Value())
    {
      ApplyValid(Value(), Op.Remove(k));
      if k in values {
        order := Drop(order, k);
        values := values - {k};
      }
    }
  }
}
