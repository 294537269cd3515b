/** The consistent-hash ring of source/db/shared_kv.cpp. */
module RingModule {
  import opened Bytes

  /** A point of the ring and the session that owns the arc before it; -1 while there is none. */
  datatype Point = Point(hash: nat, pos: int)

  /** Sorted, with distinct 32-bit hashes. */
  predicate Ring(points: seq<Point>) {
    && (forall i, j :: 0 <= i < j < |points| ==> points[i].hash < points[j].hash)
    && (forall i :: 0 <= i < |points| ==> points[i].hash < TWO32)
  }

  /** The first point past the hash, or the first point of all. */
  function Successor(points: seq<Point>, h: nat): Point
    requires points != []
  {
    Find(points, h, points[0])
  }

  function Find(points: seq<Point>, h: nat, otherwise: Point): Point {
    if points == [] then otherwise else if points[0].hash > h then points[0] else Find(points[1..], h, otherwise)
  }

  /** `std::sort` by hash; with distinct hashes the result does not depend on the algorithm. */
  function Sort(points: seq<Point>): seq<Point> {
    if points == [] then [] else Insert(Sort(points[..|points| - 1]), points[|points| - 1])
  }

  function Insert(points: seq<Point>, p: Point): seq<Point> {
    if points == [] then [p]
    else if points[0].hash < p.hash then [points[0]] + Insert(points[1..], p)
    else [p] + points
  }

  /** The point with hash `id` gets an owner. */
  function Assign(points: seq<Point>, id: nat, pos: int): seq<Point> {
    if points == [] then []
    else if points[0].hash == id then [Point(id, pos)] + points[1..]
    else [points[0]] + Assign(points[1..], id, pos)
  }

  predicate Absent(points: seq<Point>, id: nat) {
    forall i :: 0 <= i < |points| ==> points[i].hash != id
  }

  class SharedKv {
    var points: seq<Point>

    /** `GetClientPos`, and `GetClient` up to the lookup of the session. */
    method GetClientPos(h: nat) returns (pos: int)
      requires points != []
      ensures pos == Successor(points, h).pos
    {
      for i := 0 to |points|
        invariant Successor(points, h) == Find(points[i..], h, points[0])
      {
        if points[i].hash > h {
          return points[i].pos;
        }
      }
      pos := points[0].pos;
    }

    /** The first half of `addpart`: whose data is copied, and the new point without an owner. */
    method BeginAdd(id: nat) returns (source: int)
      requires Ring(points) && points != [] && id < TWO32 && Absent(points, id)
      modifies this
      ensures source == Successor(old(points), id).pos
      ensures points == Insert(old(points), Point(id, -1)) && Ring(points)
    {
      source := GetClientPos(id);
      SortAdds(points, Point(id, -1));
      InsertRing(points, Point(id, -1));
      points := points + [Point(id, -1)];
      points := Sort(points);
    }

    /** The second half: the new point gets its owner. */
    method FinishAdd(id: nat, pos: int)
      requires Ring(points)
      modifies this
      ensures points == Assign(old(points), id, pos) && Ring(points)
    {
      hide Ring, Assign, Sort;
      AssignRing(points, id, pos);
      for i := 0 to |points|
        invariant points == old(points) && Absent(points[..i], id)
      {
        if points[i].hash == id {
          AssignFirst(points, id, pos, i);
          points := points[i := Point(id, pos)];
          break;
        }
      }
      assert points == Assign(old(points), id, pos) by {
        assert points[..|points|] == points;
        if Absent(old(points), id) { AssignAbsent(old(points), id, pos); }
      }
      SortedStays(points);
      points := Sort(points);
    }
  }

  // ----- Sorting -----

  lemma {:induction false} InsertMember(points: seq<Point>, p: Point, q: Point)
    ensures q in Insert(points, p) <==> q in points || q == p
  {
    if points != [] {
      InsertMember(points[1..], p, q);
      assert q in points <==> q == points[0] || q in points[1..];
    }
  }

  lemma {:induction false} InsertRing(points: seq<Point>, p: Point)
    requires Ring(points) && Absent(points, p.hash) && p.hash < TWO32
    ensures Ring(Insert(points, p)) && |Insert(points, p)| == |points| + 1
  {
    if points != [] && points[0].hash < p.hash {
      var rest := Insert(points[1..], p);
      InsertRing(points[1..], p);
      forall i | 0 <= i < |rest| ensures points[0].hash < rest[i].hash {
        InsertMember(points[1..], p, rest[i]);
      }
    }
  }

  lemma {:induction false} InsertLast(points: seq<Point>, p: Point)
    requires Ring(points + [p])
    ensures Insert(points, p) == points + [p]
  {
    if points != [] {
      var whole := points + [p];
      assert points[1..] + [p] == whole[1..];
      assert whole[0].hash < whole[|points|].hash;
      InsertLast(points[1..], p);
    }
  }

  /** Sorting a sorted ring changes nothing. */
  lemma {:induction false} SortedStays(points: seq<Point>)
    requires Ring(points)
    ensures Sort(points) == points
  {
    if points != [] {
      var n := |points| - 1;
      SortedStays(points[..n]);
      assert points[..n] + [points[n]] == points;
      InsertLast(points[..n], points[n]);
    }
  }

  lemma SortAdds(points: seq<Point>, p: Point)
    requires Ring(points)
    ensures Sort(points + [p]) == Insert(points, p)
  {
    assert (points + [p])[..|points|] == points;
    SortedStays(points);
  }

  lemma {:induction false} AssignHashes(points: seq<Point>, id: nat, pos: int)
    ensures |Assign(points, id, pos)| == |points|
    ensures forall i :: 0 <= i < |points| ==> Assign(points, id, pos)[i].hash == points[i].hash
  {
    if points != [] {
      AssignHashes(points[1..], id, pos);
    }
  }

  lemma {:induction false} AssignAbsent(points: seq<Point>, id: nat, pos: int)
    requires Absent(points, id)
    ensures Assign(points, id, pos) == points
  {
    if points != [] {
      AssignAbsent(points[1..], id, pos);
    }
  }

  lemma {:induction false} AssignFirst(points: seq<Point>, id: nat, pos: int, i: nat)
    requires i < |points| && points[i].hash == id && Absent(points[..i], id)
    ensures Assign(points, id, pos) == points[i := Point(id, pos)]
  {
    if i > 0 {
      var rest := points[1..];
      assert points[..i][0] == points[0] && points[..i][1..] == rest[..i - 1];
      AssignFirst(rest, id, pos, i - 1);
      assert [points[0]] + rest[i - 1 := Point(id, pos)] == points[i := Point(id, pos)];
    }
  }

  lemma AssignRing(points: seq<Point>, id: nat, pos: int)
    requires Ring(points)
    ensures Ring(Assign(points, id, pos))
  {
    AssignHashes(points, id, pos);
  }

  /** Both halves together insert the point with its owner. */
  lemma {:induction false} AddInTwoSteps(points: seq<Point>, id: nat, pos: int)
    requires Absent(points, id)
    ensures Assign(Insert(points, Point(id, -1)), id, pos) == Insert(points, Point(id, pos))
  {
    if points != [] && points[0].hash < id {
      AddInTwoSteps(points[1..], id, pos);
      assert ([points[0]] + Insert(points[1..], Point(id, -1)))[1..] == Insert(points[1..], Point(id, -1));
    } else {
      assert ([Point(id, -1)] + points)[1..] == points;
    }
  }

  // ----- Who owns a hash -----

  /** How far the point is, clockwise, beyond the hash. */
  function Distance(h: nat, hash: nat): nat
    requires h < TWO32 && hash < TWO32
  {
    if hash > h then hash - h - 1 else hash + TWO32 - h - 1
  }

  /** The one point met first on the way around the circle. */
  predicate Nearest(points: seq<Point>, h: nat, p: Point)
    requires Ring(points) && h < TWO32
  {
    p in points && forall i :: 0 <= i < |points| && points[i] != p ==> Distance(h, p.hash) < Distance(h, points[i].hash)
  }

  lemma {:induction false} FindFirst(points: seq<Point>, h: nat, otherwise: Point) returns (k: nat)
    ensures k <= |points| && forall i :: 0 <= i < k ==> points[i].hash <= h
    ensures if k < |points| then points[k].hash > h && Find(points, h, otherwise) == points[k] else Find(points, h, otherwise) == otherwise
  {
    k := 0;
    if points != [] && points[0].hash <= h {
      var j := FindFirst(points[1..], h, otherwise);
      k := j + 1;
    }
  }

  /** The lookup loop finds the nearest point, and there is only one. */
  lemma SuccessorIsNearest(points: seq<Point>, h: nat, p: Point)
    requires Ring(points) && points != [] && h < TWO32
    ensures Nearest(points, h, p) <==> p == Successor(points, h)
  {
    var k := FindFirst(points, h, points[0]);
    var s := Successor(points, h);
    assert Nearest(points, h, s);
  }

  /** The arc before a new point: the hashes that meet it before any other. */
  predicate InArc(points: seq<Point>, id: nat, h: nat)
    requires Ring(points) && id < TWO32 && h < TWO32
  {
    forall i :: 0 <= i < |points| ==> Distance(h, id) < Distance(h, points[i].hash)
  }

  /** A new point takes over exactly its arc; every other hash keeps its owner. */
  lemma AddIsMinimal(points: seq<Point>, id: nat, pos: int, h: nat)
    requires Ring(points) && points != [] && id < TWO32 && Absent(points, id) && h < TWO32
    ensures
      Successor(Insert(points, Point(id, pos)), h) == if InArc(points, id, h) then Point(id, pos) else Successor(points, h)
  {
    var p := Point(id, pos);
    var after := Insert(points, p);
    InsertRing(points, p);
    InsertMember(points, p, p);
    var s := Successor(points, h);
    SuccessorIsNearest(points, h, s);
    InsertMember(points, p, s);
    var winner := if InArc(points, id, h) then p else s;
    forall i | 0 <= i < |after| && after[i] != winner ensures Distance(h, winner.hash) < Distance(h, after[i].hash) {
      InsertMember(points, p, after[i]);
    }
    SuccessorIsNearest(after, h, winner);
  }

  /** All of the arc was owned by the one session whose data is copied: the owner of the new point's own hash. */
  lemma ArcHasOneOwner(points: seq<Point>, id: nat, h: nat)
    requires Ring(points) && points != [] && id < TWO32 && Absent(points, id) && h < TWO32 && InArc(points, id, h)
    ensures Successor(points, h) == Successor(points, id)
  {
    var s := Successor(points, h);
    SuccessorIsNearest(points, h, s);
    SuccessorIsNearest(points, id, s);
  }

  /** Between the two halves exactly the arc has no owner. */
  lemma OnlyArcUnowned(points: seq<Point>, id: nat, h: nat)
    requires Ring(points) && points != [] && id < TWO32 && Absent(points, id) && h < TWO32
    requires forall i :: 0 <= i < |points| ==> points[i].pos >= 0
    ensures Successor(Insert(points, Point(id, -1)), h).pos == -1 <==> InArc(points, id, h)
  {
    AddIsMinimal(points, id, -1, h);
    SuccessorIsNearest(points, h, Successor(points, h));
  }

  // ----- Points added before the start -----

  /** Every lookup finds the nearest point although the last one was appended without sorting. */
  ghost predicate LooksUp(points: seq<Point>, p: Point) {
    forall h: nat :: h < TWO32 ==> Successor(points + [p], h) == Successor(Sort(points + [p]), h)
  }

  /** The hash just before the point, around the circle. */
  function JustBefore(p: Point): nat { if p.hash == 0 then TWO32 - 1 else p.hash - 1 }

  /** A point appended below the last one is not found from the hash just before it. */
  lemma MissedPoint(points: seq<Point>, p: Point)
    requires Ring(points) && points != [] && Absent(points, p.hash) && p.hash < TWO32 && p.hash < points[|points| - 1].hash
    ensures JustBefore(p) < TWO32 && Successor(Sort(points + [p]), JustBefore(p)) == p && Successor(points + [p], JustBefore(p)) != p
  {
    hide Ring, Find, Sort, Insert;
    SortAdds(points, p);
    InsertRing(points, p);
    InsertMember(points, p, p);
    FoundSorted(Insert(points, p), p);
    MissedUnsorted(points, p);
  }

  lemma FoundSorted(points: seq<Point>, p: Point)
    requires Ring(points) && p in points
    ensures JustBefore(p) < TWO32 && Successor(points, JustBefore(p)) == p
  {
    hide Find;
    SuccessorIsNearest(points, JustBefore(p), p);
  }

  lemma MissedUnsorted(points: seq<Point>, p: Point)
    requires Ring(points) && points != [] && Absent(points, p.hash) && p.hash < points[|points| - 1].hash
    ensures Successor(points + [p], JustBefore(p)) != p
  {
    hide Find;
    var all, last := points + [p], |points| - 1;
    var k := FindFirst(all, JustBefore(p), all[0]);
    assert all[last] == points[last] && all[0] == points[0];
    assert k <= last ==> all[k] == points[k];
  }

  /**
   Before the start `addpart` appends without sorting.  Lookups are right until the next sort if and only
   if the ring was empty or the new hash lies beyond all others.
   */
  lemma UnsortedLooksUpIff(points: seq<Point>, p: Point)
    requires Ring(points) && Absent(points, p.hash) && p.hash < TWO32
    ensures LooksUp(points, p) <==> points == [] || points[|points| - 1].hash < p.hash
  {
    SortAdds(points, p);
    if points == [] || points[|points| - 1].hash < p.hash {
      assert Ring(points + [p]);
      InsertLast(points, p);
    } else {
      MissedPoint(points, p);
    }
  }
}
