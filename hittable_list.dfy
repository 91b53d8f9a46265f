/** The scene aggregate of hittable_list.h: a linear scan over the members
    with a shrinking upper bound, keeping the record of the last member that
    reported a hit. */
module HittableLists {
  import opened Vectors
  import opened Options
  import opened Hittables

  /** The scan's variables after some prefix of the members:
      `hit_anything`, `closest_so_far` and `rec`. */
  datatype Scan = Scan(found: bool, closest: real, rec: HitRecord)

  /** One member call, with its index and the interval it was given. */
  datatype Query = Query(index: nat, tMin: real, tMax: real)

  /** One iteration of the loop body: query the member on
      [tMin, closest so far] and, on a hit, take its record and distance. */
  function Step(s: Scan, h: Hittable, r: Ray, tMin: real): Scan {
    match h(r, tMin, s.closest)
    case Some(tr) => Scan(true, tr.t, tr)
    case None => s
  }

  /** The scan over `list` in index order, starting from `closest_so_far =
      tMax`, `hit_anything = false` and the caller's record. */
  function ScanAll(list: seq<Hittable>, r: Ray, tMin: real, tMax: real, rec: HitRecord): Scan
    decreases |list|
  {
    if list == [] then Scan(false, tMax, rec)
    else Step(ScanAll(list[..|list| - 1], r, tMin, tMax, rec), list[|list| - 1], r, tMin)
  }

  /** The upper bound member `i` is queried with. */
  function BoundAt(list: seq<Hittable>, r: Ray, tMin: real, tMax: real, rec: HitRecord, i: nat): real
    requires i <= |list|
  {
    ScanAll(list[..i], r, tMin, tMax, rec).closest
  }

  /** What member `i` answers during the scan. */
  function Answer(list: seq<Hittable>, r: Ray, tMin: real, tMax: real, rec: HitRecord, i: nat): Option<HitRecord>
    requires i < |list|
  {
    list[i](r, tMin, BoundAt(list, r, tMin, tMax, rec, i))
  }

  ghost predicate AllReportWithin(list: seq<Hittable>) {
    forall i :: 0 <= i < |list| ==> ReportsWithin(list[i])
  }

  class HittableList {
    const list: seq<Hittable>

    constructor (l: seq<Hittable>)
      ensures list == l
    {
      list := l;
    }

    /** `hittable_list::hit`. Besides the result and the record it returns,
        as a ghost trace, every member call the loop makes. */
    method Hit(r: Ray, tMin: real, tMax: real, rec: HitRecord)
      returns (hitAnything: bool, outRec: HitRecord, ghost queries: seq<Query>)
      ensures hitAnything == ScanAll(list, r, tMin, tMax, rec).found
      ensures outRec == ScanAll(list, r, tMin, tMax, rec).rec
      ensures |queries| == |list|
      ensures forall k :: 0 <= k < |list| ==> queries[k] == Query(k, tMin, BoundAt(list, r, tMin, tMax, rec, k))
    {
      hitAnything := false;
      var closestSoFar := tMax;
      outRec := rec;
      queries := [];
      for i := 0 to |list|
        invariant Scan(hitAnything, closestSoFar, outRec) == ScanAll(list[..i], r, tMin, tMax, rec)
        invariant |queries| == i
        invariant forall k :: 0 <= k < i ==> queries[k] == Query(k, tMin, BoundAt(list, r, tMin, tMax, rec, k))
      {
        assert list[..i + 1][..i] == list[..i];
        queries := queries + [Query(i, tMin, closestSoFar)];
        var tempRec := list[i](r, tMin, closestSoFar);
        if tempRec.Some? {
          hitAnything := true;
          closestSoFar := tempRec.value.t;
          outRec := tempRec.value;
        }
      }
      assert list[..|list|] == list;
    }
  }

  /** A prefix of the list sees the same bounds as the whole list. */
  lemma BoundAtPrefix(list: seq<Hittable>, r: Ray, tMin: real, tMax: real, rec: HitRecord, n: nat, i: nat)
    requires i <= n <= |list|
    ensures BoundAt(list[..n], r, tMin, tMax, rec, i) == BoundAt(list, r, tMin, tMax, rec, i)
  {
    assert list[..n][..i] == list[..i];
  }

  /** The bound after member `i` is its reported distance on a hit, and
      unchanged on a miss. */
  lemma BoundStep(list: seq<Hittable>, r: Ray, tMin: real, tMax: real, rec: HitRecord, i: nat)
    requires i < |list|
    ensures BoundAt(list, r, tMin, tMax, rec, i + 1) ==
      match Answer(list, r, tMin, tMax, rec, i)
      case Some(tr) => tr.t
      case None => BoundAt(list, r, tMin, tMax, rec, i)
  {
    assert list[..i + 1][..i] == list[..i];
  }

  /** The first member is queried on exactly [tMin, tMax]. */
  lemma FirstQueryIsCallerInterval(list: seq<Hittable>, r: Ray, tMin: real, tMax: real, rec: HitRecord)
    requires |list| > 0
    ensures Answer(list, r, tMin, tMax, rec, 0) == list[0](r, tMin, tMax)
  {
    assert list[..0] == [];
  }

  /** The result is true iff some member call returned true. */
  lemma {:induction false} ScanFoundIff(list: seq<Hittable>, r: Ray, tMin: real, tMax: real, rec: HitRecord)
    ensures ScanAll(list, r, tMin, tMax, rec).found <==>
      exists i :: 0 <= i < |list| && Answer(list, r, tMin, tMax, rec, i).Some?
    decreases |list|
  {
    if list != [] {
      var n := |list| - 1;
      var init := list[..n];
      ScanFoundIff(init, r, tMin, tMax, rec);
      forall i | 0 <= i < n
        ensures Answer(init, r, tMin, tMax, rec, i) == Answer(list, r, tMin, tMax, rec, i)
      {
        BoundAtPrefix(list, r, tMin, tMax, rec, n, i);
      }
      assert list[..n] == init;
      BoundAtPrefix(list, r, tMin, tMax, rec, n, n);
      assert ScanAll(list, r, tMin, tMax, rec) == Step(ScanAll(init, r, tMin, tMax, rec), list[n], r, tMin);
      if Answer(list, r, tMin, tMax, rec, n).Some? {
        assert ScanAll(list, r, tMin, tMax, rec).found;
      } else {
        assert ScanAll(list, r, tMin, tMax, rec) == ScanAll(init, r, tMin, tMax, rec);
      }
    }
  }

  /** The record is assigned only on a hit: after a scan with no hit it is
      the caller's record and the bound is still tMax; after a hit the bound
      is the record's distance. */
  lemma {:induction false} ScanShape(list: seq<Hittable>, r: Ray, tMin: real, tMax: real, rec: HitRecord)
    ensures var s := ScanAll(list, r, tMin, tMax, rec);
      (!s.found ==> s.rec == rec && s.closest == tMax) && (s.found ==> s.closest == s.rec.t)
    decreases |list|
  {
    if list != [] {
      ScanShape(list[..|list| - 1], r, tMin, tMax, rec);
    }
  }

  /** On a hit the record is the one returned by the last member whose call
      returned true. */
  lemma {:induction false} ScanKeepsLastHit(list: seq<Hittable>, r: Ray, tMin: real, tMax: real, rec: HitRecord)
    requires ScanAll(list, r, tMin, tMax, rec).found
    ensures exists i :: 0 <= i < |list| && Answer(list, r, tMin, tMax, rec, i) == Some(ScanAll(list, r, tMin, tMax, rec).rec) &&
                        forall j :: i < j < |list| ==> Answer(list, r, tMin, tMax, rec, j).None?
    decreases |list|
  {
    var n := |list| - 1;
    var init := list[..n];
    assert list[..n] == init;
    BoundAtPrefix(list, r, tMin, tMax, rec, n, n);
    if Answer(list, r, tMin, tMax, rec, n).Some? {
      assert Answer(list, r, tMin, tMax, rec, n) == Some(ScanAll(list, r, tMin, tMax, rec).rec);
    } else {
      ScanKeepsLastHit(init, r, tMin, tMax, rec);
      var i :| 0 <= i < n && Answer(init, r, tMin, tMax, rec, i) == Some(ScanAll(init, r, tMin, tMax, rec).rec) &&
        forall j :: i < j < n ==> Answer(init, r, tMin, tMax, rec, j).None?;
      BoundAtPrefix(list, r, tMin, tMax, rec, n, i);
      assert ScanAll(list, r, tMin, tMax, rec) == ScanAll(init, r, tMin, tMax, rec);
      assert Answer(list, r, tMin, tMax, rec, i) == Some(ScanAll(list, r, tMin, tMax, rec).rec);
      forall j | i < j < |list|
        ensures Answer(list, r, tMin, tMax, rec, j).None?
      {
        if j < n {
          BoundAtPrefix(list, r, tMin, tMax, rec, n, j);
          assert Answer(init, r, tMin, tMax, rec, j).None?;
        }
      }
    }
  }

  /** With members that honour their interval, the bound never grows. */
  lemma {:induction false} BoundsShrink(list: seq<Hittable>, r: Ray, tMin: real, tMax: real, rec: HitRecord, i: nat, j: nat)
    requires AllReportWithin(list)
    requires i <= j <= |list|
    ensures BoundAt(list, r, tMin, tMax, rec, j) <= BoundAt(list, r, tMin, tMax, rec, i) <= tMax
    decreases j
  {
    if j == 0 {
      assert list[..0] == [];
    } else {
      BoundStep(list, r, tMin, tMax, rec, j - 1);
      var a := Answer(list, r, tMin, tMax, rec, j - 1);
      if a.Some? {
        assert ReportsWithin(list[j - 1]);
        assert a.value.t <= BoundAt(list, r, tMin, tMax, rec, j - 1);
      }
      if i < j {
        BoundsShrink(list, r, tMin, tMax, rec, i, j - 1);
      } else {
        BoundsShrink(list, r, tMin, tMax, rec, j - 1, j - 1);
      }
    }
  }

  /** With members that honour their interval, a hit lies in [tMin, tMax]
      and is no farther than any hit a member reported during the scan. */
  lemma ScanNearest(list: seq<Hittable>, r: Ray, tMin: real, tMax: real, rec: HitRecord)
    requires AllReportWithin(list)
    ensures var s := ScanAll(list, r, tMin, tMax, rec);
      s.found ==> (tMin <= s.rec.t <= tMax &&
                   forall i :: 0 <= i < |list| && Answer(list, r, tMin, tMax, rec, i).Some? ==>
                                 s.rec.t <= Answer(list, r, tMin, tMax, rec, i).value.t)
  {
    var s := ScanAll(list, r, tMin, tMax, rec);
    if s.found {
      ScanShape(list, r, tMin, tMax, rec);
      assert list[..|list|] == list;
      assert s.closest == BoundAt(list, r, tMin, tMax, rec, |list|);
      ScanKeepsLastHit(list, r, tMin, tMax, rec);
      var k :| 0 <= k < |list| && Answer(list, r, tMin, tMax, rec, k) == Some(s.rec) &&
        forall j :: k < j < |list| ==> Answer(list, r, tMin, tMax, rec, j).None?;
      assert ReportsWithin(list[k]);
      BoundsShrink(list, r, tMin, tMax, rec, 0, |list|);
      forall i | 0 <= i < |list| && Answer(list, r, tMin, tMax, rec, i).Some?
        ensures s.rec.t <= Answer(list, r, tMin, tMax, rec, i).value.t
      {
        BoundStep(list, r, tMin, tMax, rec, i);
        BoundsShrink(list, r, tMin, tMax, rec, i + 1, |list|);
      }
    }
  }

  /** The list as a member of a larger scene, or as the world `color`
      queries: its record on a hit, None otherwise. */
  function ListHittable(list: seq<Hittable>): Hittable {
    (r: Ray, tMin: real, tMax: real) =>
      var s := ScanAll(list, r, tMin, tMax, Unset);
      if s.found then Some(s.rec) else None
  }

  /** A list of members that honour their interval honours it too. */
  lemma ListReportsWithin(list: seq<Hittable>)
    requires AllReportWithin(list)
    ensures ReportsWithin(ListHittable(list))
  {
    forall r: Ray, tMin: real, tMax: real | ListHittable(list)(r, tMin, tMax).Some?
      ensures tMin <= ListHittable(list)(r, tMin, tMax).value.t <= tMax
    {
      ScanNearest(list, r, tMin, tMax, Unset);
    }
  }
}
