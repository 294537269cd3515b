/**
 The wire format of source/byte_array.cpp and star/rpc/serializer.h on flat byte
 sequences.  Every decoder takes the unread bytes and returns a value with what
 is left, or nothing where the C++ code throws `std::out_of_range`.
 */
module Codec {
  import opened Options
  import opened Bytes
  import opened RaftTypes

  type Decoded<T> = Option<(T, seq<Byte>)>

  predicate Int32(v: int) { -TWO31 <= v < TWO31 }
  predicate Int64(v: int) { -TWO63 <= v < TWO63 }

  // ----- Zigzag, in unsigned arithmetic of width 2^w = m -----

  /** `EncodeZigzag`: negation, doubling and decrement wrap around. */
  function Zigzag(v: int, m: nat): (z: int)
    requires m > 0
  {
    if v < 0 then ((-v) % m * 2 - 1) % m else v * 2 % m
  }

  /** `DecodeZigzag`: exclusive or with all ones is the complement m - 1 - x. */
  function Unzigzag(z: nat, m: nat): int {
    if z % 2 == 0 then ToSigned(z / 2, m) else ToSigned(m - 1 - z / 2, m)
  }

  /** Conversion of an unsigned value to the signed type of the same width. */
  function ToSigned(u: int, m: nat): int {
    if u < m / 2 then u else u - m
  }

  /** Zigzag is a bijection, the smallest value included, and keeps small magnitudes small. */
  lemma ZigzagInverts(v: int, m: nat)
    requires (m == TWO32 && Int32(v)) || (m == TWO64 && Int64(v))
    ensures 0 <= Zigzag(v, m) < m && Unzigzag(Zigzag(v, m), m) == v
    ensures Zigzag(v, m) == if v < 0 then -2 * v - 1 else 2 * v
  {
    if v < 0 {
      ModSmall(-v, m);
      ModSmall(-v * 2 - 1, m);
    } else {
      ModSmall(v * 2, m);
    }
  }

  lemma UnzigzagInverts(z: nat, m: nat)
    requires (m == TWO32 || m == TWO64) && z < m
    ensures -(m / 2) <= Unzigzag(z, m) < m / 2 && Zigzag(Unzigzag(z, m), m) == z
  {
    hide Zigzag;
    var v := Unzigzag(z, m);
    assert v == if z % 2 == 0 then z / 2 else -1 - z / 2;
    ZigzagInverts(v, m);
  }

  lemma ModSmall(x: int, m: nat)
    requires 0 <= x < m
    ensures x % m == x
  {
  }

  // ----- Varints -----

  function EncVarint(v: nat): (s: seq<Byte>)
    ensures s != []
  {
    if v < 0x80 then [v] else [v % 0x80 + 0x80] + EncVarint(v / 0x80)
  }

  /** At most `groups` bytes of seven bits each, lowest first. */
  function DecGroups(s: seq<Byte>, groups: nat): (r: Decoded<nat>)
    ensures r.Some? && groups > 0 ==> |r.value.1| < |s|
  {
    if groups == 0 then Some((0, s))
    else if s == [] then None
    else if s[0] < 0x80 then Some((s[0], s[1..]))
    else
      var (v, rest) :- DecGroups(s[1..], groups - 1);
      Some((s[0] - 0x80 + 0x80 * v, rest))
  }

  function DecUint32(s: seq<Byte>): (r: Decoded<nat>)
    ensures r.Some? ==> |r.value.1| < |s|
  {
    var (v, rest) :- DecGroups(s, 5);
    Some((v % TWO32, rest))
  }

  function DecUint64(s: seq<Byte>): (r: Decoded<nat>)
    ensures r.Some? ==> |r.value.1| < |s|
  {
    var (v, rest) :- DecGroups(s, 10);
    Some((v % TWO64, rest))
  }

  function Pow128(n: nat): (p: nat)
    ensures p > 0
  {
    if n == 0 then 1 else 0x80 * Pow128(n - 1)
  }

  /** A value below 128^groups takes at most that many bytes and is read back. */
  lemma {:induction false} VarintInverts(v: nat, groups: nat, rest: seq<Byte>)
    requires v < Pow128(groups) && groups > 0
    ensures |EncVarint(v)| <= groups && DecGroups(EncVarint(v) + rest, groups) == Some((v, rest))
  {
    var e := EncVarint(v);
    if v < 0x80 {
      assert (e + rest)[1..] == rest;
    } else {
      VarintInverts(v / 0x80, groups - 1, rest);
      assert (e + rest)[1..] == EncVarint(v / 0x80) + rest;
    }
  }

  /** Byte k holds bits 7k to 7k + 6 and is marked unless it is the last; no byte is wasted. */
  lemma {:induction false} VarintFormat(v: nat, k: nat)
    requires k < |EncVarint(v)|
    ensures EncVarint(v)[k] == v / Pow128(k) % 0x80 + if k + 1 < |EncVarint(v)| then 0x80 else 0
    ensures |EncVarint(v)| == 1 || Pow128(|EncVarint(v)| - 1) <= v < Pow128(|EncVarint(v)|)
  {
    if v >= 0x80 {
      VarintFormat(v / 0x80, if k == 0 then 0 else k - 1);
      if k > 0 {
        DivideTwice(v, Pow128(k - 1));
      }
    }
  }

  lemma DivideTwice(v: nat, d: nat)
    requires d > 0
    ensures v / 0x80 / d == v / (0x80 * d)
  {
    var q := v / 0x80 / d;
    var r := v / 0x80 % d;
    assert v == 0x80 * (d * q + r) + v % 0x80;
    assert 0x80 * r + v % 0x80 < 0x80 * d;
    Quotient(v, 0x80 * d, q, 0x80 * r + v % 0x80);
  }

  lemma Quotient(v: nat, d: nat, q: nat, r: nat)
    requires r < d && v == q * d + r
    ensures v / d == q
  {
    var other, rest := v / d, v % d;
    assert v == other * d + rest;
    if other > q {
      Exceeds(other, q, d);
    } else if other < q {
      Exceeds(q, other, d);
    }
  }

  lemma {:induction false} Exceeds(a: nat, b: nat, d: nat)
    requires a > b
    ensures a * d >= b * d + d
  {
    assert a * d == (a - 1) * d + d;
    if a - 1 > b {
      Exceeds(a - 1, b, d);
    }
  }

  /** A varint cut short cannot be read. */
  lemma {:induction false} VarintTorn(v: nat, groups: nat, k: nat)
    requires v < Pow128(groups) && groups > 0 && k < |EncVarint(v)|
    ensures DecGroups(EncVarint(v)[..k], groups) == None
  {
    if k > 0 {
      assert EncVarint(v)[..k][1..] == EncVarint(v / 0x80)[..k - 1];
      VarintTorn(v / 0x80, groups - 1, k - 1);
    }
  }

  lemma Pow128Values()
    ensures Pow128(5) == 0x8_0000_0000 && Pow128(10) == 0x40_0000_0000_0000_0000
  {
    assert Pow128(2) == 0x4000;
    assert Pow128(4) == 0x1000_0000;
    assert Pow128(6) == 0x400_0000_0000;
    assert Pow128(8) == 0x100_0000_0000_0000;
  }

  lemma Uint32Inverts(v: nat, rest: seq<Byte>)
    requires v < TWO32
    ensures |EncVarint(v)| <= 5 && DecUint32(EncVarint(v) + rest) == Some((v, rest))
  {
    hide DecGroups, EncVarint;
    Pow128Values();
    VarintInverts(v, 5, rest);
    ModSmall(v, TWO32);
  }

  lemma Uint64Inverts(v: nat, rest: seq<Byte>)
    requires v < TWO64
    ensures |EncVarint(v)| <= 10 && DecUint64(EncVarint(v) + rest) == Some((v, rest))
  {
    hide DecGroups, EncVarint;
    Pow128Values();
    VarintInverts(v, 10, rest);
    ModSmall(v, TWO64);
  }

  // ----- Scalars and strings -----

  function EncInt32(v: int): seq<Byte>
    requires Int32(v)
  {
    ZigzagInverts(v, TWO32);
    EncVarint(Zigzag(v, TWO32))
  }

  function DecInt32(s: seq<Byte>): (r: Decoded<int>)
    ensures r.Some? ==> |r.value.1| < |s|
  {
    var (z, rest) :- DecUint32(s);
    Some((Unzigzag(z, TWO32), rest))
  }

  function EncInt64(v: int): seq<Byte>
    requires Int64(v)
  {
    ZigzagInverts(v, TWO64);
    EncVarint(Zigzag(v, TWO64))
  }

  function DecInt64(s: seq<Byte>): Decoded<int> {
    var (z, rest) :- DecUint64(s);
    Some((Unzigzag(z, TWO64), rest))
  }

  function EncBool(b: bool): seq<Byte> { if b then [1] else [0] }

  function DecBool(s: seq<Byte>): Decoded<bool> {
    if s == [] then None else Some((s[0] != 0, s[1..]))
  }

  /** `size_t` lengths. */
  predicate Sized<T>(s: seq<T>) { |s| < TWO64 }

  function EncString(v: seq<Byte>): seq<Byte> { EncVarint(|v|) + v }

  function DecString(s: seq<Byte>): (r: Decoded<seq<Byte>>)
    ensures r.Some? ==> |r.value.1| < |s|
  {
    var (n, rest) :- DecUint64(s);
    if n > |rest| then None else Some((rest[..n], rest[n..]))
  }

  lemma Int32Inverts(v: int, rest: seq<Byte>)
    requires Int32(v)
    ensures DecInt32(EncInt32(v) + rest) == Some((v, rest))
  {
    ZigzagInverts(v, TWO32);
    Uint32Inverts(Zigzag(v, TWO32), rest);
  }

  lemma Int64Inverts(v: int, rest: seq<Byte>)
    requires Int64(v)
    ensures DecInt64(EncInt64(v) + rest) == Some((v, rest))
  {
    ZigzagInverts(v, TWO64);
    Uint64Inverts(Zigzag(v, TWO64), rest);
  }

  lemma Int32Torn(v: int, k: nat)
    requires Int32(v) && k < |EncInt32(v)|
    ensures DecInt32(EncInt32(v)[..k]) == None
  {
    ZigzagInverts(v, TWO32);
    Pow128Values();
    VarintTorn(Zigzag(v, TWO32), 5, k);
  }

  lemma StringInverts(v: seq<Byte>, rest: seq<Byte>)
    requires Sized(v)
    ensures DecString(EncString(v) + rest) == Some((v, rest))
  {
    Uint64Inverts(|v|, v + rest);
    assert EncString(v) + rest == EncVarint(|v|) + (v + rest);
  }

  lemma StringTorn(v: seq<Byte>, k: nat)
    requires Sized(v) && k < |EncString(v)|
    ensures DecString(EncString(v)[..k]) == None
  {
    Pow128Values();
    var e := EncVarint(|v|);
    if k < |e| {
      assert EncString(v)[..k] == e[..k];
      VarintTorn(|v|, 10, k);
    } else {
      assert EncString(v)[..k] == e + v[..k - |e|];
      Uint64Inverts(|v|, v[..k - |e|]);
    }
  }

  // ----- Log entries -----

  predicate EntryOk(e: LogEntry) { Int32(e.index) && Int32(e.term) && Sized(e.value) }

  function EncEntry(e: LogEntry): seq<Byte>
    requires EntryOk(e)
  {
    EncInt32(e.index) + EncInt32(e.term) + EncString(e.value)
  }

  function DecEntry(s: seq<Byte>): (r: Decoded<LogEntry>)
    ensures r.Some? ==> |r.value.1| < |s|
  {
    var (index, s1) :- DecInt32(s);
    var (term, s2) :- DecInt32(s1);
    var (value, rest) :- DecString(s2);
    Some((LogEntry(index, term, value), rest))
  }

  lemma EntryInverts(e: LogEntry, rest: seq<Byte>)
    requires EntryOk(e)
    ensures DecEntry(EncEntry(e) + rest) == Some((e, rest))
  {
    var a, b, c := EncInt32(e.index), EncInt32(e.term), EncString(e.value);
    assert EncEntry(e) + rest == a + (b + (c + rest));
    Int32Inverts(e.index, b + (c + rest));
    Int32Inverts(e.term, c + rest);
    StringInverts(e.value, rest);
  }

  /** An entry cut short is recognised as such. */
  lemma EntryTorn(e: LogEntry, k: nat)
    requires EntryOk(e) && k < |EncEntry(e)|
    ensures DecEntry(EncEntry(e)[..k]) == None
  {
    var a, b, c := EncInt32(e.index), EncInt32(e.term), EncString(e.value);
    var p := EncEntry(e)[..k];
    if k < |a| {
      assert p == a[..k];
      Int32Torn(e.index, k);
    } else if k < |a| + |b| {
      assert p == a + b[..k - |a|];
      Int32Inverts(e.index, b[..k - |a|]);
      Int32Torn(e.term, k - |a|);
    } else {
      var j := k - |a| - |b|;
      assert p == a + (b + c[..j]);
      Int32Inverts(e.index, b + c[..j]);
      Int32Inverts(e.term, c[..j]);
      StringTorn(e.value, j);
    }
  }

  // ----- Vectors -----

  predicate EntriesOk(es: seq<LogEntry>) { forall e :: e in es ==> EntryOk(e) }

  function EncEach(es: seq<LogEntry>): seq<Byte>
    requires EntriesOk(es)
  {
    if es == [] then [] else EncEntry(es[0]) + EncEach(es[1..])
  }

  function DecEach(s: seq<Byte>, n: nat): Decoded<seq<LogEntry>>
    decreases n
  {
    if n == 0 then Some(([], s))
    else
      var (e, s1) :- DecEntry(s);
      var (es, rest) :- DecEach(s1, n - 1);
      Some(([e] + es, rest))
  }

  function EncEntries(es: seq<LogEntry>): seq<Byte>
    requires EntriesOk(es)
  {
    EncVarint(|es|) + EncEach(es)
  }

  function DecEntries(s: seq<Byte>): Decoded<seq<LogEntry>> {
    var (n, rest) :- DecUint64(s);
    DecEach(rest, n)
  }

  lemma {:induction false} EachInverts(es: seq<LogEntry>, rest: seq<Byte>)
    requires EntriesOk(es)
    ensures DecEach(EncEach(es) + rest, |es|) == Some((es, rest))
  {
    hide DecEntry, EncEntry;
    if es != [] {
      assert EncEach(es) + rest == EncEntry(es[0]) + (EncEach(es[1..]) + rest);
      EntryInverts(es[0], EncEach(es[1..]) + rest);
      EachInverts(es[1..], rest);
      assert [es[0]] + es[1..] == es;
    } else {
      assert EncEach(es) + rest == rest;
    }
  }

  lemma EntriesInvert(es: seq<LogEntry>, rest: seq<Byte>)
    requires EntriesOk(es) && Sized(es)
    ensures DecEntries(EncEntries(es) + rest) == Some((es, rest))
  {
    assert EncEntries(es) + rest == EncVarint(|es|) + (EncEach(es) + rest);
    Uint64Inverts(|es|, EncEach(es) + rest);
    EachInverts(es, rest);
  }

  // ----- String maps -----

  type Str = seq<Byte>
  datatype Pair = Pair(key: Str, value: Str)

  predicate PairsOk(ps: seq<Pair>) { forall p :: p in ps ==> Sized(p.key) && Sized(p.value) }

  function EncPairs(ps: seq<Pair>): seq<Byte> {
    if ps == [] then [] else EncString(ps[0].key) + EncString(ps[0].value) + EncPairs(ps[1..])
  }

  /** `emplace`: a key that is already there keeps its value. */
  function Emplace(m: map<Str, Str>, p: Pair): map<Str, Str> {
    if p.key in m then m else m[p.key := p.value]
  }

  function EmplaceAll(m: map<Str, Str>, ps: seq<Pair>): map<Str, Str>
    decreases |ps|
  {
    if ps == [] then m else EmplaceAll(Emplace(m, ps[0]), ps[1..])
  }

  function DecPairs(s: seq<Byte>, n: nat, m: map<Str, Str>): Decoded<map<Str, Str>>
    decreases n
  {
    if n == 0 then Some((m, s))
    else
      var (k, s1) :- DecString(s);
      var (v, s2) :- DecString(s1);
      DecPairs(s2, n - 1, Emplace(m, Pair(k, v)))
  }

  /** A map is written as its size and its pairs in iteration order. */
  function EncMap(ps: seq<Pair>): seq<Byte> { EncVarint(|ps|) + EncPairs(ps) }

  function DecMap(s: seq<Byte>): Decoded<map<Str, Str>> {
    var (n, rest) :- DecUint64(s);
    DecPairs(rest, n, map[])
  }

  /** `ps` lists the map m, each key once, in some order. */
  ghost predicate Lists(ps: seq<Pair>, m: map<Str, Str>) {
    && (forall i, j :: 0 <= i < j < |ps| ==> ps[i].key != ps[j].key)
    && (forall p :: p in ps ==> p.key in m && m[p.key] == p.value)
    && (forall k :: k in m ==> exists i :: 0 <= i < |ps| && ps[i].key == k)
  }

  lemma {:induction false} PairsInvert(ps: seq<Pair>, m: map<Str, Str>, rest: seq<Byte>)
    requires PairsOk(ps)
    ensures DecPairs(EncPairs(ps) + rest, |ps|, m) == Some((EmplaceAll(m, ps), rest))
    decreases |ps|
  {
    hide DecString, EncString;
    if ps != [] {
      var tail := EncPairs(ps[1..]) + rest;
      assert EncPairs(ps) + rest == EncString(ps[0].key) + (EncString(ps[0].value) + tail);
      StringInverts(ps[0].key, EncString(ps[0].value) + tail);
      StringInverts(ps[0].value, tail);
      PairsInvert(ps[1..], Emplace(m, ps[0]), rest);
    } else {
      assert EncPairs(ps) + rest == rest;
    }
  }

  lemma {:induction false} EmplacedKeys(m: map<Str, Str>, ps: seq<Pair>)
    requires forall i, j :: 0 <= i < j < |ps| ==> ps[i].key != ps[j].key
    requires forall i :: 0 <= i < |ps| ==> ps[i].key !in m
    ensures
      var r := EmplaceAll(m, ps);
      && (forall k :: k in m ==> k in r && r[k] == m[k])
      && (forall i :: 0 <= i < |ps| ==> ps[i].key in r && r[ps[i].key] == ps[i].value)
      && (forall k :: k in r ==> k in m || exists i :: 0 <= i < |ps| && ps[i].key == k)
    decreases |ps|
  {
    if ps != [] {
      var m1, r := Emplace(m, ps[0]), EmplaceAll(m, ps);
      assert ps[0].key in m1 && m1[ps[0].key] == ps[0].value;
      EmplacedKeys(m1, ps[1..]);
      forall i | 0 <= i < |ps| ensures ps[i].key in r && r[ps[i].key] == ps[i].value {
        if i > 0 { assert ps[i] == ps[1..][i - 1]; }
      }
      forall k | k in r && k !in m ensures exists i :: 0 <= i < |ps| && ps[i].key == k {
        if k != ps[0].key {
          var i :| 0 <= i < |ps[1..]| && ps[1..][i].key == k;
          assert ps[i + 1].key == k;
        }
      }
    }
  }

  /** A map written in any iteration order is read back. */
  lemma MapInverts(ps: seq<Pair>, m: map<Str, Str>, rest: seq<Byte>)
    requires Lists(ps, m) && PairsOk(ps) && Sized(ps)
    ensures DecMap(EncMap(ps) + rest) == Some((m, rest))
  {
    hide DecUint64, DecPairs, EncVarint, EncPairs;
    assert EncMap(ps) + rest == EncVarint(|ps|) + (EncPairs(ps) + rest);
    Uint64Inverts(|ps|, EncPairs(ps) + rest);
    PairsInvert(ps, map[], rest);
    EmplacedKeys(map[], ps);
    assert EmplaceAll(map[], ps) == m;
  }
}
