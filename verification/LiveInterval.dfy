/**
  Live intervals: the slots at which a value must sit in a register, as a
  sorted list of half-open slot ranges with holes between them.
 */
module LiveIntervals {

  /** Distance between the slots of successive instructions. */
  const DIST: nat := 2
  /** A slot index is stored in 29 bits. */
  const SLOT_LIMIT: nat := 0x2000_0000
  const INVALID_MAX_ID: nat := 0xFFFF_FFFF
  const REG_UNKNOWN: nat := 255

  /** One definition of a pseudo register: the register, the defining instruction, the register class. */
  datatype Value = Value(preg: nat, def: nat, cls: nat)

  datatype Range = Range(start: nat, end: nat) {

    predicate Contain(slot: nat) {
      start <= slot < end
    }

    predicate Intersect(o: Range) {
      Contain(o.start) || o.Contain(start)
    }

    predicate Linkable(o: Range) {
      start == o.end || end == o.start || Intersect(o)
    }

    function Merge(o: Range): Range
      requires Linkable(o)
    {
      Range(if o.start < start then o.start else start, if end < o.end then o.end else end)
    }
  }

  // ----- what a list of ranges means -----------------------------------------

  ghost predicate Holds(rs: seq<Range>, slot: nat) {
    exists r :: r in rs && r.Contain(slot)
  }

  ghost predicate ShareSlot(a: seq<Range>, b: seq<Range>) {
    exists p :: Holds(a, p) && Holds(b, p)
  }

  /** Non-empty ranges, in order, that do not overlap. */
  ghost predicate Ordered(rs: seq<Range>) {
    && (forall i :: 0 <= i < |rs| ==> rs[i].start < rs[i].end)
    && (forall i, j :: 0 <= i < j < |rs| ==> rs[i].end <= rs[j].start)
  }

  /** Ordered, and no range could be fused with another one. */
  ghost predicate Separated(rs: seq<Range>) {
    && (forall i :: 0 <= i < |rs| ==> rs[i].start < rs[i].end)
    && (forall i, j :: 0 <= i < j < |rs| ==> rs[i].end < rs[j].start)
  }

  ghost predicate Bounded(rs: seq<Range>) {
    forall r :: r in rs ==> r.end <= SLOT_LIMIT
  }

  // ----- Add_range -------------------------------------------------------------

  /** `cur` after taking in the ranges behind it that meet or touch it. */
  function Absorb(cur: Range, rest: seq<Range>): seq<Range>
    decreases |rest|
  {
    if rest != [] && (cur.Intersect(rest[0]) || cur.end == rest[0].start)
    then Absorb(cur.Merge(rest[0]), rest[1..])
    else [cur] + rest
  }

  function Added(rs: seq<Range>, lr: Range): seq<Range>
    decreases |rs|
  {
    if rs == [] then [lr]
    else if rs[0].Intersect(lr) || rs[0].start == lr.end then Absorb(rs[0].Merge(lr), rs[1..])
    else if rs[0].start > lr.end then [lr] + rs
    else [rs[0]] + Added(rs[1..], lr)
  }

  /** Order, separation and slots of a list, from its first range and the rest. */
  lemma Front(r: Range, rs: seq<Range>, slot: nat)
    ensures Ordered([r] + rs) <==>
            r.start < r.end && Ordered(rs) && (rs != [] ==> r.end <= rs[0].start)
    ensures Separated([r] + rs) <==>
            r.start < r.end && Separated(rs) && (rs != [] ==> r.end < rs[0].start)
    ensures Holds([r] + rs, slot) <==> r.Contain(slot) || Holds(rs, slot)
  {
    FrontOrdered(r, rs);
    FrontSeparated(r, rs);
    if r.Contain(slot) {
      assert r in [r] + rs;
    } else if Holds(rs, slot) {
      var x :| x in rs && x.Contain(slot);
      assert x in [r] + rs;
    }
  }

  lemma FrontOrdered(r: Range, rs: seq<Range>)
    ensures Ordered([r] + rs) <==>
            r.start < r.end && Ordered(rs) && (rs != [] ==> r.end <= rs[0].start)
  {
    var all := [r] + rs;
    if Ordered(all) {
      assert all[0].start < all[0].end && (rs != [] ==> all[0].end <= all[1].start);
      forall i | 0 <= i < |rs| ensures rs[i].start < rs[i].end {
        assert all[i + 1].start < all[i + 1].end;
      }
      forall i, j | 0 <= i < j < |rs| ensures rs[i].end <= rs[j].start {
        assert all[i + 1].end <= all[j + 1].start;
      }
    }
    if r.start < r.end && Ordered(rs) && (rs != [] ==> r.end <= rs[0].start) {
      forall i, j | 0 <= i < j < |all| ensures all[i].end <= all[j].start {
        if i > 0 {
          assert rs[i - 1].end <= rs[j - 1].start;
        } else if j > 1 {
          assert rs[0].end <= rs[j - 1].start;
        }
      }
    }
  }

  lemma FrontSeparated(r: Range, rs: seq<Range>)
    ensures Separated([r] + rs) <==>
            r.start < r.end && Separated(rs) && (rs != [] ==> r.end < rs[0].start)
  {
    var all := [r] + rs;
    if Separated(all) {
      assert all[0].start < all[0].end && (rs != [] ==> all[0].end < all[1].start);
      forall i | 0 <= i < |rs| ensures rs[i].start < rs[i].end {
        assert all[i + 1].start < all[i + 1].end;
      }
      forall i, j | 0 <= i < j < |rs| ensures rs[i].end < rs[j].start {
        assert all[i + 1].end < all[j + 1].start;
      }
    }
    if r.start < r.end && Separated(rs) && (rs != [] ==> r.end < rs[0].start) {
      forall i, j | 0 <= i < j < |all| ensures all[i].end < all[j].start {
        if i > 0 {
          assert rs[i - 1].end < rs[j - 1].start;
        } else if j > 1 {
          assert rs[0].end < rs[j - 1].start;
        }
      }
    }
  }

  lemma Unfold(rs: seq<Range>, slot: nat)
    requires rs != []
    ensures Ordered(rs) <==>
            rs[0].start < rs[0].end && Ordered(rs[1..]) && (|rs| > 1 ==> rs[0].end <= rs[1].start)
    ensures Separated(rs) <==>
            rs[0].start < rs[0].end && Separated(rs[1..]) && (|rs| > 1 ==> rs[0].end < rs[1].start)
    ensures Holds(rs, slot) <==> rs[0].Contain(slot) || Holds(rs[1..], slot)
  {
    assert rs == [rs[0]] + rs[1..];
    Front(rs[0], rs[1..], slot);
  }

  lemma NoneHeld(slot: nat)
    ensures !Holds([], slot) && Ordered([]) && Separated([])
  {
  }

  lemma {:induction false} AbsorbIs(cur: Range, rest: seq<Range>, slot: nat)
    requires cur.start < cur.end && Ordered(rest)
    requires rest != [] ==> cur.start <= rest[0].start
    ensures var out := Absorb(cur, rest);
            && Ordered(out) && out != [] && out[0].start == cur.start
            && (Holds(out, slot) <==> cur.Contain(slot) || Holds(rest, slot))
    ensures Separated(rest) ==> Separated(Absorb(cur, rest))
    decreases |rest|
  {
    hide Ordered, Separated, Holds;
    Front(cur, rest, slot);
    if rest != [] {
      Unfold(rest, slot);
      if cur.Intersect(rest[0]) || cur.end == rest[0].start {
        AbsorbIs(cur.Merge(rest[0]), rest[1..], slot);
      }
    }
  }

  /** Adding a range denotes exactly the union, whatever the range; the list stays ordered. */
  lemma {:induction false} AddedIs(rs: seq<Range>, lr: Range, slot: nat)
    requires Ordered(rs) && lr.start < lr.end
    ensures Ordered(Added(rs, lr))
    ensures Holds(Added(rs, lr), slot) <==> Holds(rs, slot) || lr.Contain(slot)
    ensures Added(rs, lr) != []
    ensures Added(rs, lr)[0].start == if rs == [] || lr.start < rs[0].start then lr.start else rs[0].start
    decreases |rs|
  {
    hide Ordered, Separated, Holds;
    Front(lr, rs, slot);
    if rs == [] {
      assert [lr] + rs == [lr];
    } else {
      Unfold(rs, slot);
      if rs[0].Intersect(lr) || rs[0].start == lr.end {
        AbsorbIs(rs[0].Merge(lr), rs[1..], slot);
      } else if rs[0].start <= lr.end {
        AddedIs(rs[1..], lr, slot);
        Front(rs[0], Added(rs[1..], lr), slot);
      }
    }
  }

  /** No range is left fusible exactly when no range ended where the new one starts. */
  lemma {:induction false} AddedSeparated(rs: seq<Range>, lr: Range)
    requires Separated(rs) && lr.start < lr.end
    ensures Separated(Added(rs, lr)) <==> forall r :: r in rs ==> r.end != lr.start
    decreases |rs|
  {
    hide Ordered, Separated, Holds;
    SeparatedOrdered(rs);
    Front(lr, rs, 0);
    if rs == [] {
      assert [lr] + rs == [lr];
    } else {
      Unfold(rs, 0);
      assert forall r :: r in rs <==> r == rs[0] || r in rs[1..];
      if rs[0].Intersect(lr) || rs[0].start == lr.end {
        AbsorbIs(rs[0].Merge(lr), rs[1..], 0);
        LaterEnds(rs);
      } else if rs[0].start > lr.end {
        LaterEnds(rs);
      } else {
        AddedSeparated(rs[1..], lr);
        AddedIs(rs[1..], lr, 0);
        Front(rs[0], Added(rs[1..], lr), 0);
      }
    }
  }

  lemma SeparatedOrdered(rs: seq<Range>)
    requires Separated(rs)
    ensures Ordered(rs)
  {
  }

  lemma LaterEnds(rs: seq<Range>)
    requires Separated(rs) && rs != []
    ensures forall r :: r in rs ==> rs[0].end <= r.end && (r == rs[0] || rs[0].end < r.end)
  {
    forall r | r in rs ensures rs[0].end <= r.end && (r == rs[0] || rs[0].end < r.end) {
      var i :| 0 <= i < |rs| && rs[i] == r;
      assert i > 0 ==> rs[0].end < rs[i].start;
    }
  }

  // ----- Advance_to, Update_start_slot ------------------------------------------

  /** Position of the first range that ends behind `slot`, or the length of the list. */
  function AdvanceTo(rs: seq<Range>, slot: nat): (k: nat)
    ensures k <= |rs|
    ensures forall j :: 0 <= j < k ==> rs[j].end <= slot
    ensures k < |rs| ==> slot < rs[k].end
  {
    if rs == [] || rs[0].end > slot then 0 else 1 + AdvanceTo(rs[1..], slot)
  }

  /** The ranges after a definition at `slot`. */
  function Started(rs: seq<Range>, slot: nat): seq<Range> {
    if rs == [] then [Range(slot, slot + DIST)]
    else
      var k := AdvanceTo(rs, slot);
      if k < |rs| then rs[k := Range(slot, rs[k].end)] else rs
  }

  /**
    When every range ends behind the definition, the value is held from its
    definition on, and no longer before it; a value never used is held for one step.
   */
  lemma StartedIs(rs: seq<Range>, def: nat, slot: nat)
    requires Ordered(rs) && (forall r :: r in rs ==> def < r.end)
    ensures Ordered(Started(rs, def)) && Started(rs, def)[0].start == def
    ensures Holds(Started(rs, def), slot) <==>
            def <= slot && (Holds(rs, slot) || slot < if rs == [] then def + DIST else rs[0].start)
    ensures rs != [] ==> |Started(rs, def)| == |rs| && Started(rs, def)[0].end == rs[0].end
    ensures Separated(rs) ==> Separated(Started(rs, def))
  {
    hide Ordered, Separated, Holds;
    NoneHeld(slot);
    if rs == [] {
      Front(Range(def, def + DIST), [], slot);
      assert Started(rs, def) == [Range(def, def + DIST)] + [];
    } else {
      assert rs[0] in rs;
      assert Started(rs, def) == [Range(def, rs[0].end)] + rs[1..];
      Front(Range(def, rs[0].end), rs[1..], slot);
      Unfold(rs, slot);
      TailAfter(rs, slot);
    }
  }

  lemma TailAfter(rs: seq<Range>, slot: nat)
    requires Ordered(rs) && rs != []
    ensures Holds(rs[1..], slot) ==> rs[0].end <= slot
  {
    if Holds(rs[1..], slot) {
      var x :| x in rs[1..] && x.Contain(slot);
      var i :| 0 <= i < |rs[1..]| && rs[1..][i] == x;
      assert rs[0].end <= rs[i + 1].start;
    }
  }

  // ----- the interval of a value -------------------------------------------------

  class LiveInterval {
    const value: Value
    var ranges: seq<Range>
    var reg: nat

    constructor (v: Value)
      ensures value == v && ranges == [] && reg == REG_UNKNOWN
    {
      value := v;
      ranges := [];
      reg := REG_UNKNOWN;
    }

    function RegCls(): nat {
      value.cls
    }

    function Start(): nat
      requires ranges != []
      reads this`ranges
    {
      ranges[0].start
    }

    function End(): nat
      requires ranges != []
      reads this`ranges
    {
      ranges[|ranges| - 1].end
    }

    /** Adds `lr`; `ok` tells whether the assertion that the tail is not reached holds. */
    method AddRange(lr: Range) returns (ok: bool)
      requires Ordered(ranges) && lr.start < lr.end
      modifies this`ranges
      ensures ranges == Added(old(ranges), lr)
      ensures ok <==> old(ranges) == [] || lr.start < old(End())
    {
      if ranges == [] {
        ranges := [lr];
        return true;
      }
      var i := 0;
      while i < |ranges|
        invariant 0 <= i <= |ranges| && ranges == old(ranges)
        invariant Added(ranges, lr) == ranges[..i] + Added(ranges[i..], lr)
        invariant forall j :: 0 <= j < i ==> ranges[j].end <= lr.start
      {
        assert ranges[i..][1..] == ranges[i + 1..];
        assert ranges[i].end <= old(End());
        if ranges[i].Intersect(lr) || ranges[i].start == lr.end {
          ranges := ranges[i := ranges[i].Merge(lr)];
          var changed := MergeSucc(i);
          return true;
        } else if ranges[i].start > lr.end {
          ranges := ranges[..i] + [lr] + ranges[i..];
          return true;
        }
        i := i + 1;
      }
      ranges := ranges + [lr];
      return false;
    }

    /** Fuses range `i` with the ranges behind it that meet or touch it. */
    method MergeSucc(i: nat) returns (changed: bool)
      requires i <= |ranges|
      modifies this`ranges
      ensures i == old(|ranges|) ==> ranges == old(ranges) && !changed
      ensures i < old(|ranges|) ==> ranges == old(ranges[..i]) + Absorb(old(ranges[i]), old(ranges[i + 1..]))
      ensures changed <==> ranges != old(ranges)
    {
      changed := false;
      if i == |ranges| {
        return;
      }
      while i + 1 < |ranges| && (ranges[i].Intersect(ranges[i + 1]) || ranges[i].end == ranges[i + 1].start)
        invariant i < |ranges| <= old(|ranges|)
        invariant ranges[..i] == old(ranges[..i])
        invariant Absorb(ranges[i], ranges[i + 1..]) == Absorb(old(ranges[i]), old(ranges[i + 1..]))
        invariant changed <==> |ranges| < old(|ranges|)
        invariant !changed ==> ranges == old(ranges)
        decreases |ranges|
      {
        var merged := ranges[i].Merge(ranges[i + 1]);
        assert ranges[i + 1..][1..] == ranges[i + 2..];
        ranges := ranges[..i] + [merged] + ranges[i + 2..];
        changed := true;
      }
      assert ranges == ranges[..i] + ([ranges[i]] + ranges[i + 1..]);
    }

    /** A definition at `slot`: the first range ending behind it starts there. */
    method UpdateStartSlot(slot: nat)
      requires ranges == [] || exists r :: r in ranges && slot < r.end
      modifies this`ranges
      ensures ranges == Started(old(ranges), slot)
    {
      var k := AdvanceTo(ranges, slot);
      if k == |ranges| {
        ranges := ranges + [Range(slot, slot + DIST)];
        return;
      }
      ranges := ranges[k := Range(slot, ranges[k].end)];
    }

    method Contain(slot: nat) returns (r: bool)
      requires Ordered(ranges)
      ensures r <==> Holds(ranges, slot)
    {
      for i := 0 to |ranges|
        invariant forall j :: 0 <= j < i ==> !ranges[j].Contain(slot)
      {
        if ranges[i].start > slot {
          forall j | i <= j < |ranges| ensures !ranges[j].Contain(slot) {
            assert i < j ==> ranges[i].end <= ranges[j].start;
          }
          return false;
        }
        if ranges[i].Contain(slot) {
          return true;
        }
      }
      return false;
    }

    /** The least slot both intervals hold, or the invalid maximum when there is none. */
    method IntersectPos(li: LiveInterval) returns (pos: nat)
      requires Ordered(ranges) && Ordered(li.ranges) && Bounded(ranges)
      ensures pos == INVALID_MAX_ID <==> !ShareSlot(ranges, li.ranges)
      ensures pos != INVALID_MAX_ID ==>
                && Holds(ranges, pos) && Holds(li.ranges, pos)
                && forall p: nat :: p < pos && Holds(ranges, p) ==> !Holds(li.ranges, p)
    {
      if li.ranges == [] || ranges == [] {
        return INVALID_MAX_ID;
      }
      for i := 0 to |li.ranges|
        invariant forall j, p: nat :: 0 <= j < i && li.ranges[j].Contain(p) ==> !Holds(ranges, p)
      {
        var lr := li.ranges[i];
        var k := AdvanceTo(ranges, lr.start);
        if k == |ranges| {
          forall j, p: nat | i <= j < |li.ranges| && li.ranges[j].Contain(p) ensures !Holds(ranges, p) {
            assert i < j ==> lr.end <= li.ranges[j].start;
          }
          NoSharedSlot(ranges, li.ranges);
          return INVALID_MAX_ID;
        }
        forall p: nat | lr.start <= p < ranges[k].start ensures !Holds(ranges, p) {
          NotBetween(ranges, k, p);
        }
        if ranges[k].start >= lr.end {
          continue;
        }
        pos := if lr.start < ranges[k].start then ranges[k].start else lr.start;
        assert ranges[k] in ranges && ranges[k].Contain(pos);
        assert lr in li.ranges && lr.Contain(pos);
        assert Holds(ranges, pos) && Holds(li.ranges, pos);
        forall p: nat | p < pos && Holds(ranges, p) ensures !Holds(li.ranges, p) {
          forall j | 0 <= j < |li.ranges| ensures !li.ranges[j].Contain(p) {
            assert i < j ==> lr.end <= li.ranges[j].start;
          }
        }
        return;
      }
      NoSharedSlot(ranges, li.ranges);
      return INVALID_MAX_ID;
    }

    /** Checking neighbours is enough: the answer is about all pairs. */
    method Verify() returns (r: bool)
      requires forall i :: 0 <= i < |ranges| ==> ranges[i].start < ranges[i].end
      ensures r <==> Separated(ranges)
    {
      for i := 0 to |ranges|
        invariant forall a, b :: 0 <= a < b <= i && b < |ranges| ==> ranges[a].end < ranges[b].start
      {
        if i + 1 == |ranges| {
          return true;
        }
        var cur, next := ranges[i], ranges[i + 1];
        if cur.start >= next.start || cur.end == next.start || cur.Intersect(next) {
          assert !(ranges[i].end < ranges[i + 1].start);
          return false;
        }
      }
      return true;
    }
  }

  // ----- the order of intervals ---------------------------------------------------

  predicate RangeLess(a: Range, b: Range) {
    a.start < b.start || (a.start == b.start && a.end < b.end)
  }

  predicate ListLess(a: seq<Range>, b: seq<Range>) {
    b != [] && (a == [] || RangeLess(a[0], b[0]) || (a[0] == b[0] && ListLess(a[1..], b[1..])))
  }

  predicate ValueLess(a: Value, b: Value) {
    a.def < b.def || (a.def == b.def && a.preg < b.preg)
  }

  /** By ranges, then by value. */
  predicate Precedes(a: LiveInterval, b: LiveInterval)
    reads a`ranges, b`ranges
  {
    if a.ranges != b.ranges then ListLess(a.ranges, b.ranges) else ValueLess(a.value, b.value)
  }

  lemma {:induction false} ListLessKeeps(a: seq<Range>, b: seq<Range>, c: seq<Range>)
    requires ListLess(a, b) && ListLess(b, c)
    ensures ListLess(a, c)
  {
    if a != [] && a[0] == b[0] == c[0] {
      ListLessKeeps(a[1..], b[1..], c[1..]);
    }
  }

  lemma {:induction false} NotListLess(a: seq<Range>)
    ensures !ListLess(a, a)
  {
    if a != [] {
      NotListLess(a[1..]);
    }
  }

  /** The comparator is a strict order. */
  lemma PrecedesKeeps(a: LiveInterval, b: LiveInterval, c: LiveInterval)
    ensures !Precedes(a, a) && (Precedes(a, b) && Precedes(b, c) ==> Precedes(a, c))
  {
    NotListLess(a.ranges);
    if Precedes(a, b) && Precedes(b, c) && a.ranges != b.ranges && b.ranges != c.ranges {
      ListLessKeeps(a.ranges, b.ranges, c.ranges);
    }
  }

  /** Range lists compare by the first place where they differ, a list that ends there being the smaller one. */
  lemma {:induction false} ListLessIff(a: seq<Range>, b: seq<Range>)
    ensures ListLess(a, b) <==> exists k: nat :: DifferAt(a, b, k) && k < |b| && (k < |a| ==> RangeLess(a[k], b[k]))
  {
    if a != [] && b != [] && a[0] == b[0] {
      ListLessIff(a[1..], b[1..]);
      if k: nat :| DifferAt(a[1..], b[1..], k) && k < |b[1..]| && (k < |a[1..]| ==> RangeLess(a[1..][k], b[1..][k])) {
        assert a[..k + 1] == [a[0]] + a[1..][..k] && b[..k + 1] == [b[0]] + b[1..][..k];
        assert DifferAt(a, b, k + 1);
      }
      if k: nat :| DifferAt(a, b, k) && k < |b| && (k < |a| ==> RangeLess(a[k], b[k])) {
        assert k > 0;
        assert a[1..][..k - 1] == a[..k][1..] && b[1..][..k - 1] == b[..k][1..];
        assert DifferAt(a[1..], b[1..], k - 1);
      }
    } else {
      assert DifferAt(a, b, 0) || (a == [] && b == []);
      if k: nat :| DifferAt(a, b, k) && k < |b| {
        SameBefore(a, b, k);
      }
    }
  }

  lemma SameBefore(a: seq<Range>, b: seq<Range>, k: nat)
    requires DifferAt(a, b, k)
    ensures k > 0 ==> a[0] == b[0]
  {
    assert k > 0 ==> a[0] == a[..k][0] && b[0] == b[..k][0];
  }

  /** The lists are the same up to place `k`, and not there. */
  ghost predicate DifferAt(a: seq<Range>, b: seq<Range>, k: nat) {
    k <= |a| && k <= |b| && a[..k] == b[..k] && (k < |a| || k < |b|) && (k < |a| && k < |b| ==> a[k] != b[k])
  }

  /** What a sorted list is: intervals of the same ranges stand by definition, then by pseudo register. */
  lemma SortedMeans(li: seq<LiveInterval>, i: nat, j: nat)
    requires InLiOrder(li) && i < j < |li|
    ensures li[i].ranges == li[j].ranges ==>
              li[i].value.def <= li[j].value.def
              && (li[i].value.def == li[j].value.def ==> li[i].value.preg <= li[j].value.preg)
    ensures li[i].ranges != li[j].ranges ==>
              exists k: nat :: DifferAt(li[i].ranges, li[j].ranges, k) && k < |li[j].ranges|
                && (k < |li[i].ranges| ==> RangeLess(li[i].ranges[k], li[j].ranges[k]))
  {
    var a, b := li[i].ranges, li[j].ranges;
    if a != b {
      var k := FirstDiffer(a, b);
      ListLessIff(b, a);
      assert DifferAt(b, a, k);
    }
  }

  lemma {:induction false} FirstDiffer(a: seq<Range>, b: seq<Range>) returns (k: nat)
    requires a != b
    ensures DifferAt(a, b, k)
  {
    if a == [] || b == [] || a[0] != b[0] {
      k := 0;
    } else {
      k := FirstDiffer(a[1..], b[1..]);
      assert a[..k + 1] == [a[0]] + a[1..][..k] && b[..k + 1] == [b[0]] + b[1..][..k];
      k := k + 1;
    }
  }

  /** Sorted by the comparator. */
  ghost predicate InLiOrder(li: seq<LiveInterval>)
    reads li`ranges
  {
    forall i, j :: 0 <= i < j < |li| ==> !Precedes(li[j], li[i])
  }

  lemma InsertInOrder(x: LiveInterval, li: seq<LiveInterval>, i: nat)
    requires InLiOrder(li) && i <= |li| && (forall j :: 0 <= j < i ==> !Precedes(x, li[j]))
    requires i < |li| ==> Precedes(x, li[i])
    ensures InLiOrder(li[..i] + [x] + li[i..])
  {
    hide Precedes;
    var out := li[..i] + [x] + li[i..];
    forall a, b | 0 <= a < b < |out| ensures !Precedes(out[b], out[a]) {
      if a == i {
        PrecedesKeeps(out[b], x, li[i]);
        PrecedesKeeps(x, out[b], x);
        assert out[b] == li[b - 1];
      }
    }
  }

  /** Non-empty intervals, in the order in which they start. */
  ghost predicate ByStart(li: seq<LiveInterval>)
    reads li`ranges
  {
    && (forall i :: 0 <= i < |li| ==> li[i].ranges != [])
    && (forall i, j :: 0 <= i < j < |li| ==> li[i].Start() <= li[j].Start())
  }

  /** Puts `x` in front of the first interval it precedes. */
  method Insert(x: LiveInterval, li: seq<LiveInterval>) returns (out: seq<LiveInterval>)
    requires ByStart(li) && InLiOrder(li) && x.ranges != []
    ensures ByStart(out) && InLiOrder(out)
    ensures exists i :: 0 <= i <= |li| && out == li[..i] + [x] + li[i..]
  {
    var i := 0;
    while i < |li| && !Precedes(x, li[i])
      invariant i <= |li| && forall j :: 0 <= j < i ==> li[j].Start() <= x.Start() && !Precedes(x, li[j])
    {
      i := i + 1;
    }
    out := li[..i] + [x] + li[i..];
    InsertInOrder(x, li, i);
    forall j | i <= j < |li| ensures x.Start() <= li[j].Start() {
      assert x.Start() <= li[i].Start();
    }
  }

  lemma NoSharedSlot(a: seq<Range>, b: seq<Range>)
    requires forall j, p: nat :: 0 <= j < |b| && b[j].Contain(p) ==> !Holds(a, p)
    ensures !ShareSlot(a, b)
  {
    forall p: nat | Holds(b, p) ensures !Holds(a, p) {
      var r :| r in b && r.Contain(p);
      var j :| 0 <= j < |b| && b[j] == r;
    }
  }

  /** Between the ranges before `k` and range `k` nothing is held. */
  lemma NotBetween(rs: seq<Range>, k: nat, slot: nat)
    requires Ordered(rs) && k < |rs| && slot < rs[k].start
    requires forall j :: 0 <= j < k ==> rs[j].end <= slot
    ensures !Holds(rs, slot)
  {
    forall j | 0 <= j < |rs| ensures !rs[j].Contain(slot) {
      assert k < j ==> rs[k].end <= rs[j].start;
    }
  }
}
