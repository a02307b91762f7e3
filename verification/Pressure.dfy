/** Register pressure, said of the graph alone: how many values are occupied at one point. */
module Pressure {
  import opened Basics
  import opened LiveIntervals
  import opened Liveness
  import opened IntervalSweep
  import opened Lsras

  /** The ranges of all values are complete; a value without ranges needs none. */
  ghost predicate AllDone(g: Cfg, ranges: map<Value, seq<Range>>) {
    && (forall v :: v in ranges ==> ranges[v] != [])
    && (forall v :: Done(g, if v in ranges then ranges[v] else [], v, 0))
  }

  lemma HeldInside(rs: seq<Range>, lo: nat, hi: nat, slot: nat)
    requires Within(rs, lo, hi) && Holds(rs, slot)
    ensures lo <= slot < hi
  {
  }

  // ----- how many values at once ----------------------------------------------

  /** The values of a class that are live or just defined at a point. */
  ghost function OccupiedBy(g: Cfg, vals: set<Value>, rc: nat, b: nat, k: nat): set<Value>
    requires IsPoint(g, b, k)
  {
    set v | v in vals && v.cls == rc && Occupied(g, v, b, k)
  }

  /** The values of a class whose intervals hold a slot. */
  ghost function HeldBy(ranges: map<Value, seq<Range>>, rc: nat, slot: nat): set<Value> {
    set v | v in ranges && v.cls == rc && Holds(ranges[v], slot)
  }

  /** No class needs more registers at any point than it has. */
  ghost predicate PressureFits(g: Cfg, vals: set<Value>, target: Target) {
    forall rc: nat, b: nat, k: nat :: IsPoint(g, b, k) ==>
      |OccupiedBy(g, vals, rc, b, k)| <= |Allocatable(target, rc)|
  }

  ghost predicate HeldFits(ranges: map<Value, seq<Range>>, target: Target) {
    forall rc: nat, slot: nat :: |HeldBy(ranges, rc, slot)| <= |Allocatable(target, rc)|
  }

  lemma HeldFitsPoints(g: Cfg, ranges: map<Value, seq<Range>>, target: Target)
    requires AllDone(g, ranges) && HeldFits(ranges, target)
    ensures PressureFits(g, ranges.Keys, target)
  {
    hide Occupied, Strict;
    forall rc: nat, b: nat, k: nat | IsPoint(g, b, k)
      ensures |OccupiedBy(g, ranges.Keys, rc, b, k)| <= |Allocatable(target, rc)|
    {
      var slot := Slot(g, b, k);
      assert SlotAt(g, b, k, slot);
      forall v | v in OccupiedBy(g, ranges.Keys, rc, b, k) ensures v in HeldBy(ranges, rc, slot) {
        assert Done(g, ranges[v], v, 0);
      }
      SmallerSet(OccupiedBy(g, ranges.Keys, rc, b, k), HeldBy(ranges, rc, slot));
    }
  }

  lemma PointsFitHeld(g: Cfg, ranges: map<Value, seq<Range>>, target: Target)
    requires AllDone(g, ranges) && Strict(g) && PressureFits(g, ranges.Keys, target)
    ensures HeldFits(ranges, target)
  {
    forall rc: nat, slot: nat ensures |HeldBy(ranges, rc, slot)| <= |Allocatable(target, rc)| {
      if w :| w in HeldBy(ranges, rc, slot) {
        HeldAtPoint(g, ranges, target, rc, slot, w);
      } else {
        assert HeldBy(ranges, rc, slot) == {};
      }
    }
  }

  lemma HeldAtPoint(g: Cfg, ranges: map<Value, seq<Range>>, target: Target, rc: nat, slot: nat, w: Value)
    requires AllDone(g, ranges) && Strict(g) && PressureFits(g, ranges.Keys, target)
    requires w in HeldBy(ranges, rc, slot)
    ensures |HeldBy(ranges, rc, slot)| <= |Allocatable(target, rc)|
  {
    hide Occupied, Strict, BlockStart, Allocatable;
    assert Done(g, ranges[w], w, 0);
    HeldInside(ranges[w], BlockStart(g, 0), BlockStart(g, |g|), slot);
    var b, k := SlotPoint(g, 0, slot);
    forall v | v in HeldBy(ranges, rc, slot) ensures v in OccupiedBy(g, ranges.Keys, rc, b, k) {
      assert Done(g, ranges[v], v, 0);
    }
    SmallerSet(HeldBy(ranges, rc, slot), OccupiedBy(g, ranges.Keys, rc, b, k));
  }

  // ----- values in each other's way ---------------------------------------------

  /** Both values are live or just defined at some point. */
  ghost predicate Meet(g: Cfg, v: Value, w: Value) {
    exists p :: OccupiedAt(g, v, p) && OccupiedAt(g, w, p)
  }

  /** The other values of the class of `v` that meet it. */
  ghost function Rivals(g: Cfg, vals: set<Value>, v: Value): set<Value> {
    set w | w in vals && w != v && w.cls == v.cls && Meet(g, w, v)
  }

  function OfClass(vals: set<Value>, rc: nat): set<Value> {
    set v | v in vals && v.cls == rc
  }

  lemma SharedMeet(g: Cfg, rs: seq<Range>, v: Value, rs': seq<Range>, w: Value)
    requires Done(g, rs, v, 0) && Done(g, rs', w, 0) && ShareSlot(rs, rs') && Strict(g) && 0 < |g|
    ensures Meet(g, v, w)
  {
    var slot :| Holds(rs, slot) && Holds(rs', slot);
    HeldInside(rs, BlockStart(g, 0), BlockStart(g, |g|), slot);
    hide Occupied, Strict, BlockStart;
    var b, k := SlotPoint(g, 0, slot);
    assert OccupiedAt(g, v, Pt(b, k)) && OccupiedAt(g, w, Pt(b, k));
  }

  // ----- values without holes -------------------------------------------------

  predicate Before(p: Pt, q: Pt) {
    p.b < q.b || (p.b == q.b && p.k < q.k)
  }

  ghost predicate OccupiedAt(g: Cfg, v: Value, p: Pt) {
    IsPoint(g, p.b, p.k) && Occupied(g, v, p.b, p.k)
  }

  /** In layout order a value is occupied at every point between two at which it is. */
  ghost predicate Unbroken(g: Cfg, v: Value) {
    forall p, q, r ::
      Before(p, q) && Before(q, r) && IsPoint(g, q.b, q.k) && OccupiedAt(g, v, p) && OccupiedAt(g, v, r) ==>
        OccupiedAt(g, v, q)
  }

  lemma PointsInOrder(g: Cfg, p: Pt, q: Pt, s: nat, t: nat)
    requires IsPoint(g, p.b, p.k) && IsPoint(g, q.b, q.k) && SlotAt(g, p.b, p.k, s) && SlotAt(g, q.b, q.k, t)
    requires s < t
    ensures p == q || Before(p, q)
  {
    if Before(q, p) {
      SlotsInOrder(g, q.b, q.k, p.b, p.k);
    }
  }

  lemma PointHeldIff(g: Cfg, rs: seq<Range>, v: Value, slot: nat) returns (p: Pt)
    requires Done(g, rs, v, 0) && Strict(g) && 0 < |g| && BlockStart(g, 0) <= slot < BlockStart(g, |g|)
    ensures IsPoint(g, p.b, p.k) && SlotAt(g, p.b, p.k, slot)
    ensures OccupiedAt(g, v, p) <==> Holds(rs, slot)
  {
    hide Occupied, Strict, BlockStart;
    var b, k := SlotPoint(g, 0, slot);
    p := Pt(b, k);
  }

  /** The interval of an unbroken value has no holes. */
  lemma UnbrokenHoleFree(g: Cfg, rs: seq<Range>, v: Value)
    requires Done(g, rs, v, 0) && Strict(g) && 0 < |g| && Unbroken(g, v) && rs != []
    ensures |rs| == 1
  {
    assert Separated(rs) && Within(rs, BlockStart(g, 0), BlockStart(g, |g|));
    hide Done, Occupied, Strict, BlockStart, IsPoint, SlotAt;
    if |rs| > 1 {
      var r, r' := rs[0], rs[1];
      assert r in rs && r' in rs && r.Contain(r.start) && r'.Contain(r'.start);
      var p := PointHeldIff(g, rs, v, r.start);
      var q := PointHeldIff(g, rs, v, r.end);
      var q' := PointHeldIff(g, rs, v, r'.start);
      assert !Holds(rs, r.end);
      PointsInOrder(g, p, q, r.start, r.end);
      PointsInOrder(g, q, q', r.end, r'.start);
    }
  }

  /** A list of distinct values picks as many of them as it has positions picked. */
  lemma {:induction false} SameSize(ids: set<nat>, f: seq<Value>, vals: set<Value>)
    requires forall i :: i in ids ==> i < |f| && f[i] in vals
    requires forall i, j :: i in ids && j in ids && i != j ==> f[i] != f[j]
    requires forall v :: v in vals ==> exists i :: i in ids && f[i] == v
    ensures |ids| == |vals|
  {
    if ids == {} {
      assert vals == {} by {
        if v :| v in vals {
          assert false;
        }
      }
    } else {
      var i :| i in ids;
      SameSize(ids - {i}, f, vals - {f[i]});
    }
  }
}
