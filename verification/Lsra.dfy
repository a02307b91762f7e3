/** Linear scan: intervals in the order of their starts, each given a register that is free for it. */
module Lsras {
  import opened Basics
  import opened LiveIntervals

  datatype RegMeta = RegMeta(allocatable: bool, callerSave: bool)

  /** The registers of each register class; a class the target lacks has none. */
  type Target = nat -> seq<RegMeta>

  /** Register numbers are stored in 8 bits, the last one meaning that none is assigned. */
  ghost predicate ValidTarget(target: Target) {
    forall rc: nat :: |target(rc)| <= REG_UNKNOWN
  }

  function Allocatable(target: Target, rc: nat): set<nat> {
    set r | 0 <= r < |target(rc)| && target(rc)[r].allocatable
  }

  /** An interval as the builder leaves it. */
  ghost predicate Proper(x: LiveInterval)
    reads x`ranges
  {
    x.ranges != [] && Ordered(x.ranges) && Bounded(x.ranges)
  }

  ghost predicate AllProper(li: seq<LiveInterval>)
    reads li`ranges
  {
    forall x :: x in li ==> Proper(x)
  }

  /** Two intervals hold the same register at the same slot. */
  ghost predicate Conflict(a: LiveInterval, b: LiveInterval)
    reads a, b
  {
    && a != b && a.RegCls() == b.RegCls() && a.reg == b.reg && a.reg != REG_UNKNOWN
    && ShareSlot(a.ranges, b.ranges)
  }

  // ----- register pressure --------------------------------------------------------

  /** What of an interval does not change any more. */
  datatype Shape = Shape(cls: nat, ranges: seq<Range>)

  ghost function Shapes(li: seq<LiveInterval>): (r: seq<Shape>)
    reads li`ranges
    ensures |r| == |li|
    ensures forall i :: 0 <= i < |li| ==> r[i] == Shape(li[i].RegCls(), li[i].ranges)
  {
    if li == [] then [] else
      var n := |li| - 1;
      Shapes(li[..n]) + [Shape(li[n].RegCls(), li[n].ranges)]
  }

  /** No interval has a hole. */
  ghost predicate HoleFree(shapes: seq<Shape>) {
    forall i :: 0 <= i < |shapes| ==> |shapes[i].ranges| == 1
  }

  /** The intervals of a class that hold a slot. */
  ghost function Overlap(shapes: seq<Shape>, rc: nat, slot: nat): set<nat> {
    set i | 0 <= i < |shapes| && shapes[i].cls == rc && Holds(shapes[i].ranges, slot)
  }

  /** At no slot do more intervals of a class overlap than there are registers to allocate. */
  ghost predicate LowPressure(shapes: seq<Shape>, target: Target) {
    forall rc: nat, slot: nat :: |Overlap(shapes, rc, slot)| <= |Allocatable(target, rc)|
  }

  // ----- what the scan computes -----------------------------------------------------

  ghost function Regs(li: seq<LiveInterval>): (r: seq<nat>)
    reads li`reg
    ensures |r| == |li|
    ensures forall i :: 0 <= i < |li| ==> r[i] == li[i].reg
  {
    if li == [] then [] else
      var n := |li| - 1;
      Regs(li[..n]) + [li[n].reg]
  }

  /** An earlier interval of the class of interval `i` shares a slot with it. */
  ghost predicate Rival(shapes: seq<Shape>, i: nat, j: nat)
    requires i < |shapes|
  {
    j < i && shapes[j].cls == shapes[i].cls && ShareSlot(shapes[j].ranges, shapes[i].ranges)
  }

  /** Register `r` can be allocated and no earlier interval that holds it shares a slot with interval `i`. */
  ghost predicate Open(target: Target, shapes: seq<Shape>, regs: seq<nat>, i: nat, r: nat)
    requires i < |shapes| <= |regs|
  {
    r in Allocatable(target, shapes[i].cls) && forall j: nat :: Rival(shapes, i, j) ==> regs[j] != r
  }

  /** Of two registers `r` comes first: caller-saved ones do, then lower numbers. */
  predicate ComesFirst(regs: seq<RegMeta>, r: nat, q: nat)
    requires r < |regs| && q < |regs|
  {
    if regs[r].callerSave == regs[q].callerSave then r < q else regs[r].callerSave
  }

  /** Interval `i` has the first of all open registers, and none exactly when none is open. */
  ghost predicate FirstFit(target: Target, shapes: seq<Shape>, regs: seq<nat>, i: nat)
    requires i < |shapes| <= |regs|
  {
    var r, meta := regs[i], target(shapes[i].cls);
    && (r == REG_UNKNOWN <==> forall q: nat :: !Open(target, shapes, regs, i, q))
    && (r != REG_UNKNOWN ==> Open(target, shapes, regs, i, r))
    && (r != REG_UNKNOWN ==>
          forall q: nat :: q != r && Open(target, shapes, regs, i, q) ==>
            q < |meta| && r < |meta| && ComesFirst(meta, r, q))
  }

  ghost predicate AllFirstFit(target: Target, shapes: seq<Shape>, regs: seq<nat>, n: nat)
    requires n <= |shapes| <= |regs|
  {
    forall i: nat :: i < n ==> FirstFit(target, shapes, regs, i)
  }

  /** The choice for an interval is about the intervals before it only. */
  lemma FirstFitKept(target: Target, shapes: seq<Shape>, regs: seq<nat>, regs': seq<nat>, i: nat)
    requires i < |shapes| <= |regs| == |regs'| && regs[..i + 1] == regs'[..i + 1]
    requires FirstFit(target, shapes, regs, i)
    ensures FirstFit(target, shapes, regs', i)
  {
    hide ShareSlot, Allocatable;
    assert forall j: nat :: j <= i ==> regs[j] == regs[..i + 1][j] && regs'[j] == regs'[..i + 1][j];
    forall q: nat ensures Open(target, shapes, regs', i, q) <==> Open(target, shapes, regs, i, q) {
      OpenKept(target, shapes, regs, regs', i, q);
    }
  }

  /** The first of the open registers, or none, is what first fit asks for. */
  lemma FirstIsFirstFit(target: Target, shapes: seq<Shape>, before: seq<nat>, i: nat, r: nat)
    requires i < |shapes| <= |before|
    requires r == REG_UNKNOWN <==> forall q: nat :: !Open(target, shapes, before, i, q)
    requires r != REG_UNKNOWN ==> Open(target, shapes, before, i, r) && forall q: nat ::
               q != r && Open(target, shapes, before, i, q) ==>
                 var meta := target(shapes[i].cls); q < |meta| && r < |meta| && ComesFirst(meta, r, q)
    ensures FirstFit(target, shapes, before[i := r], i)
  {
    hide ShareSlot, Allocatable;
    var regs := before[i := r];
    assert forall j: nat :: j < i ==> regs[j] == before[j];
    forall q: nat ensures Open(target, shapes, regs, i, q) <==> Open(target, shapes, before, i, q) {
      OpenKept(target, shapes, before, regs, i, q);
    }
  }

  lemma OpenKept(target: Target, shapes: seq<Shape>, regs: seq<nat>, regs': seq<nat>, i: nat, q: nat)
    requires i < |shapes| <= |regs| == |regs'| && forall j: nat :: j < i ==> regs[j] == regs'[j]
    ensures Open(target, shapes, regs, i, q) <==> Open(target, shapes, regs', i, q)
  {
  }

  /** First fit leaves no choice: shapes and target decide all registers. */
  lemma {:induction false} FirstFitUnique(target: Target, shapes: seq<Shape>, regs: seq<nat>, regs': seq<nat>, n: nat)
    requires n <= |shapes| <= |regs| == |regs'|
    requires AllFirstFit(target, shapes, regs, n) && AllFirstFit(target, shapes, regs', n)
    ensures regs[..n] == regs'[..n]
  {
    if n > 0 {
      var i := n - 1;
      FirstFitUnique(target, shapes, regs, regs', i);
      SameFit(target, shapes, regs, regs', i);
    }
  }

  lemma SameFit(target: Target, shapes: seq<Shape>, regs: seq<nat>, regs': seq<nat>, i: nat)
    requires i < |shapes| <= |regs| == |regs'| && regs[..i] == regs'[..i]
    requires FirstFit(target, shapes, regs, i) && FirstFit(target, shapes, regs', i)
    ensures regs[..i + 1] == regs'[..i + 1]
  {
    hide ShareSlot, Allocatable;
    assert forall j: nat :: j < i ==> regs[j] == regs[..i][j] && regs'[j] == regs'[..i][j];
    forall q: nat ensures Open(target, shapes, regs', i, q) <==> Open(target, shapes, regs, i, q) {
      OpenKept(target, shapes, regs, regs', i, q);
    }
  }

  /** An interval with fewer rivals than its class has registers gets one. */
  lemma FewRivals(target: Target, shapes: seq<Shape>, regs: seq<nat>, i: nat, rivals: set<nat>)
    requires i < |shapes| <= |regs| && FirstFit(target, shapes, regs, i)
    requires forall j: nat :: Rival(shapes, i, j) ==> j in rivals
    requires |rivals| < |Allocatable(target, shapes[i].cls)|
    ensures regs[i] != REG_UNKNOWN
  {
    hide ShareSlot, Allocatable;
    if regs[i] == REG_UNKNOWN {
      var reg := map j: nat | j < i :: regs[j];
      forall r | r in Allocatable(target, shapes[i].cls) ensures exists j :: j in rivals && j in reg && reg[j] == r {
        assert !Open(target, shapes, regs, i, r);
        var j: nat :| Rival(shapes, i, j) && regs[j] == r;
        assert j in rivals && reg[j] == r;
      }
      FewerRegs(rivals, reg, Allocatable(target, shapes[i].cls));
    }
  }

  /** The registers that the members of a set name are no more than the members. */
  lemma {:induction false} FewerRegs<T>(ids: set<T>, reg: map<T, nat>, regs: set<nat>)
    requires forall r :: r in regs ==> exists i :: i in ids && i in reg && reg[i] == r
    ensures |regs| <= |ids|
    decreases |ids|
  {
    if ids == {} {
      assert regs == {};
    } else {
      var i :| i in ids;
      var r := if i in reg then reg[i] else 0;
      FewerRegs(ids - {i}, reg, regs - {r});
      assert regs <= (regs - {r}) + {r};
      assert |regs| <= |regs - {r}| + 1;
    }
  }

  /** Intervals with different registers are no more than the registers. */
  lemma {:induction false} FewerIntervals(ids: set<nat>, reg: map<nat, nat>, regs: set<nat>)
    requires forall i :: i in ids ==> i in reg && reg[i] in regs
    requires forall i, j :: i in ids && j in ids && i != j ==> reg[i] != reg[j]
    ensures |ids| <= |regs|
    decreases |ids|
  {
    if ids != {} {
      var i :| i in ids;
      FewerIntervals(ids - {i}, reg, regs - {reg[i]});
    }
  }

  lemma HeldBeforeEnd(rs: seq<Range>, slot: nat)
    requires Ordered(rs) && rs != [] && Holds(rs, slot)
    ensures rs[0].start <= slot < rs[|rs| - 1].end
  {
    var r :| r in rs && r.Contain(slot);
    var i :| 0 <= i < |rs| && rs[i] == r;
    assert i > 0 ==> rs[0].end <= rs[i].start;
    assert i < |rs| - 1 ==> rs[i].end <= rs[|rs| - 1].start;
  }

  // ----- low pressure is not enough for intervals with holes --------------------------

  /** Two intervals that overlap, and a third one that meets each of them behind the hole of the other. */
  const HOLES: seq<Shape> := [
    Shape(0, [Range(2, 6), Range(12, 14)]), Shape(0, [Range(4, 6), Range(16, 18)]), Shape(0, [Range(8, 18)])
  ]

  lemma HolesMeet()
    ensures Rival(HOLES, 1, 0) && Rival(HOLES, 2, 0) && Rival(HOLES, 2, 1)
  {
    var a, b, c := HOLES[0].ranges, HOLES[1].ranges, HOLES[2].ranges;
    assert a[0] in a && b[0] in b && a[1] in a && b[1] in b && c[0] in c;
    assert a[0].Contain(4) && b[0].Contain(4) && a[1].Contain(12) && c[0].Contain(12);
    assert b[1].Contain(16) && c[0].Contain(16);
    assert Holds(a, 4) && Holds(b, 4) && Holds(a, 12) && Holds(c, 12) && Holds(b, 16) && Holds(c, 16);
  }

  lemma HolesLow(target: Target)
    requires |Allocatable(target, 0)| == 2
    ensures LowPressure(HOLES, target)
  {
    hide Allocatable;
    forall rc: nat, slot: nat ensures |Overlap(HOLES, rc, slot)| <= |Allocatable(target, rc)| {
      var over := Overlap(HOLES, rc, slot);
      if rc == 0 {
        NeverThree(slot);
        var i :| i in {0, 1, 2} && i !in over;
        assert over <= {0, 1, 2} - {i} && |{0, 1, 2} - {i}| == 2;
        SmallerSet(over, {0, 1, 2} - {i});
      } else {
        assert over == {};
      }
    }
  }

  lemma NeverThree(slot: nat)
    ensures !(0 in Overlap(HOLES, 0, slot) && 1 in Overlap(HOLES, 0, slot) && 2 in Overlap(HOLES, 0, slot))
  {
  }

  /** With two registers the pressure is low, and yet the third interval is blocked. */
  lemma LowPressureBlocks(target: Target, regs: seq<nat>)
    requires Allocatable(target, 0) == {0, 1} && |regs| == 3 && AllFirstFit(target, HOLES, regs, 3)
    ensures LowPressure(HOLES, target) && regs[2] == REG_UNKNOWN
  {
    HolesLow(target);
    HolesMeet();
    hide Allocatable, ShareSlot, LowPressure;
    assert FirstFit(target, HOLES, regs, 0) && FirstFit(target, HOLES, regs, 1) && FirstFit(target, HOLES, regs, 2);
    assert Open(target, HOLES, regs, 0, 0);
    var r := regs[0];
    assert r in {0, 1};
    assert Open(target, HOLES, regs, 1, 1 - r) by {
      assert forall j: nat :: Rival(HOLES, 1, j) ==> j == 0;
    }
    assert regs[1] != r;
  }

  function RowOf(dregLi: map<(nat, nat), seq<LiveInterval>>, rc: nat, regNum: nat): seq<LiveInterval> {
    if (rc, regNum) in dregLi then dregLi[(rc, regNum)] else []
  }

  class Lsra {
    const target: Target
    const liInfo: seq<LiveInterval>
    var active: seq<LiveInterval>
    var inactive: seq<LiveInterval>
    var dregLi: map<(nat, nat), seq<LiveInterval>>
    /** The intervals for which a register would have had to be spilled. */
    var blocked: set<LiveInterval>

    constructor (target: Target, liInfo: seq<LiveInterval>)
      ensures this.target == target && this.liInfo == liInfo
      ensures active == [] && inactive == [] && dregLi == map[] && blocked == {}
    {
      this.target := target;
      this.liInfo := liInfo;
      active, inactive, dregLi, blocked := [], [], map[], {};
    }

    // ----- one interval -----------------------------------------------------------

    /** Register `r` is held by no active interval, and by no inactive one that meets `li`. */
    ghost predicate RegFree(r: nat, li: LiveInterval)
      reads this`active, this`inactive, active, inactive, li
    {
      ActiveFree(r, li.RegCls()) && InactiveFree(r, li, inactive)
    }

    ghost predicate Usable(r: nat, li: LiveInterval)
      reads this`active, this`inactive, active, inactive, li
    {
      r in Allocatable(target, li.RegCls()) && RegFree(r, li)
    }

    /** The first usable caller-saved register, or else the first usable one. */
    ghost predicate Preferred(r: nat, n: nat, li: LiveInterval)
      reads this`active, this`inactive, active, inactive, li
    {
      && r < n && Usable(r, li) && r < |target(li.RegCls())|
      && var regs := target(li.RegCls());
         forall q: nat :: q < n && q < |regs| && q != r && Usable(q, li) ==> ComesFirst(regs, r, q)
    }

    /** Registers in use are registers of their class. */
    ghost predicate RegsKnown(li: seq<LiveInterval>)
      reads li
    {
      forall a :: a in li ==> a.reg < |target(a.RegCls())|
    }

    method AllocBlockedReg(li: LiveInterval) returns (res: bool)
      modifies this`blocked
      ensures !res && blocked == old(blocked) + {li}
    {
      blocked := blocked + {li};
      return false;
    }

    lemma EndInside(li: LiveInterval)
      requires Proper(li)
      ensures 0 < li.End() < INVALID_MAX_ID
    {
      assert li.ranges[|li.ranges| - 1] in li.ranges;
    }

    /** No active interval holds `r`. */
    ghost predicate ActiveFree(r: nat, rc: nat)
      reads this`active, active
    {
      forall a :: a in active && a.RegCls() == rc ==> a.reg != r
    }

    /** None of these inactive intervals holds `r` and meets `li`. */
    ghost predicate InactiveFree(r: nat, li: LiveInterval, some: seq<LiveInterval>)
      reads some, li
    {
      forall a :: a in some && a.RegCls() == li.RegCls() && a.reg == r ==> !ShareSlot(a.ranges, li.ranges)
    }

    /** For each register, the slot up to which it is free for `li`. */
    method FreeUntil(li: LiveInterval) returns (freeUntil: array<nat>)
      requires Proper(li) && AllProper(inactive) && RegsKnown(active) && RegsKnown(inactive)
      ensures fresh(freeUntil) && freeUntil.Length == |target(li.RegCls())|
      ensures forall r: nat :: r < freeUntil.Length ==> (freeUntil[r] >= li.End() <==> RegFree(r, li))
      ensures forall r: nat :: r < freeUntil.Length ==> (RegFree(r, li) <==> freeUntil[r] == INVALID_MAX_ID)
    {
      EndInside(li);
      hide Proper, ActiveFree, InactiveFree;
      freeUntil := new nat[|target(li.RegCls())|](_ => INVALID_MAX_ID);
      TakeActive(freeUntil, li.RegCls());
      TakeInactive(freeUntil, li);
    }

    /** A register of an active interval is not free at all. */
    method TakeActive(freeUntil: array<nat>, rc: nat)
      requires RegsKnown(active) && freeUntil.Length == |target(rc)|
      requires forall r: nat :: r < freeUntil.Length ==> freeUntil[r] == INVALID_MAX_ID
      modifies freeUntil
      ensures forall r: nat :: r < freeUntil.Length ==>
                freeUntil[r] == if ActiveFree(r, rc) then INVALID_MAX_ID else 0
    {
      for i := 0 to |active|
        invariant forall r: nat :: r < freeUntil.Length ==>
          freeUntil[r] == if exists a :: a in active[..i] && a.RegCls() == rc && a.reg == r then 0 else INVALID_MAX_ID
      {
        assert active[..i + 1] == active[..i] + [active[i]];
        if active[i].RegCls() != rc {
          continue;
        }
        freeUntil[active[i].reg] := 0;
      }
      assert active[..|active|] == active;
    }

    /** A register of an inactive interval is free up to the first slot where that one meets `li`. */
    method TakeInactive(freeUntil: array<nat>, li: LiveInterval)
      requires Proper(li) && AllProper(inactive) && RegsKnown(inactive)
      requires freeUntil.Length == |target(li.RegCls())|
      requires forall r: nat :: r < freeUntil.Length ==>
                 freeUntil[r] == if ActiveFree(r, li.RegCls()) then INVALID_MAX_ID else 0
      modifies freeUntil
      ensures forall r: nat :: r < freeUntil.Length ==>
                (freeUntil[r] == INVALID_MAX_ID <==> ActiveFree(r, li.RegCls()) && InactiveFree(r, li, inactive))
      ensures forall r: nat :: r < freeUntil.Length ==> freeUntil[r] == INVALID_MAX_ID || freeUntil[r] < li.End()
    {
      hide ActiveFree, ShareSlot;
      EndInside(li);
      for i := 0 to |inactive|
        invariant forall r: nat :: r < freeUntil.Length ==>
          (freeUntil[r] == INVALID_MAX_ID <==> ActiveFree(r, li.RegCls()) && InactiveFree(r, li, inactive[..i]))
        invariant forall r: nat :: r < freeUntil.Length ==> freeUntil[r] == INVALID_MAX_ID || freeUntil[r] < li.End()
      {
        assert inactive[..i + 1] == inactive[..i] + [inactive[i]];
        if inactive[i].RegCls() != li.RegCls() {
          continue;
        }
        var intersectPos := MeetAt(inactive[i], li);
        var regId := inactive[i].reg;
        freeUntil[regId] := if intersectPos < freeUntil[regId] then intersectPos else freeUntil[regId];
      }
      assert inactive[..|inactive|] == inactive;
    }

    method MeetAt(x: LiveInterval, li: LiveInterval) returns (pos: nat)
      requires Proper(x) && Proper(li)
      ensures pos == INVALID_MAX_ID <==> !ShareSlot(x.ranges, li.ranges)
      ensures pos == INVALID_MAX_ID || pos < li.End()
    {
      pos := x.IntersectPos(li);
      if pos != INVALID_MAX_ID {
        HeldBeforeEnd(li.ranges, pos);
      }
    }

    /** Appends `li` to the intervals of register `regNum`. */
    method SetDregLi(rc: nat, regNum: nat, li: LiveInterval)
      requires li.reg == REG_UNKNOWN
      modifies this`dregLi, li`reg
      ensures li.reg == regNum && dregLi == old(dregLi)[(rc, regNum) := RowOf(old(dregLi), rc, regNum) + [li]]
    {
      dregLi := dregLi[(rc, regNum) := RowOf(dregLi, rc, regNum) + [li]];
      li.reg := regNum;
    }

    /**
      Gives `li` a register unless none of its class is usable; among the usable
      ones a caller-saved register comes first, then the lowest number.
     */
    method AllocFreeReg(li: LiveInterval) returns (res: bool)
      requires ValidTarget(target) && Proper(li) && AllProper(inactive)
      requires RegsKnown(active) && RegsKnown(inactive) && li.reg == REG_UNKNOWN
      modifies this`dregLi, this`blocked, li`reg
      ensures res <==> exists r: nat :: old(Usable(r, li))
      ensures res ==> var r := li.reg; r != REG_UNKNOWN && old(Preferred(r, REG_UNKNOWN, li))
      ensures res ==> blocked == old(blocked) && var r := li.reg;
                dregLi == old(dregLi)[(li.RegCls(), r) := RowOf(old(dregLi), li.RegCls(), r) + [li]]
      ensures !res ==> li.reg == REG_UNKNOWN && blocked == old(blocked) + {li} && dregLi == old(dregLi)
    {
      hide RegFree;
      var rc := li.RegCls();
      var regs := target(rc);
      var freeUntil := FreeUntil(li);
      var candReg: nat, maxFreePos: nat := REG_UNKNOWN, 0;
      for regId := 0 to |regs|
        invariant candReg == REG_UNKNOWN ==> maxFreePos == 0 && forall q: nat :: q < regId ==> !Usable(q, li)
        invariant candReg != REG_UNKNOWN ==> maxFreePos == INVALID_MAX_ID && Preferred(candReg, regId, li)
      {
        if !regs[regId].allocatable {
          continue;
        }
        if freeUntil[regId] < li.End() {
          continue;
        }
        if candReg != REG_UNKNOWN && regs[regId].callerSave && !regs[candReg].callerSave {
          maxFreePos := freeUntil[regId];
          candReg := regId;
          continue;
        }
        if freeUntil[regId] > maxFreePos {
          maxFreePos := freeUntil[regId];
          candReg := regId;
          continue;
        }
      }
      EndInside(li);
      if maxFreePos >= li.End() {
        assert old(Usable(candReg, li));
        SetDregLi(rc, candReg, li);
        return true;
      }
      forall r: nat ensures !old(Usable(r, li)) {
        assert r < |regs| ==> !Usable(r, li);
      }
      res := AllocBlockedReg(li);
    }

    // ----- the scan -------------------------------------------------------------------

    ghost predicate InHole(x: LiveInterval, pos: nat)
      reads x`ranges
    {
      x.ranges != [] && pos < x.End() && !Holds(x.ranges, pos)
    }

    /** Drops the active intervals that are over at `pos` and sets aside those in a hole. */
    method SweepActive(pos: nat)
      requires AllProper(active) && NoDup(active + inactive)
      modifies this`active, this`inactive
      ensures NoDup(active + inactive) && Tracked(old(active + inactive), pos)
      ensures forall x :: x in active ==> x in old(active) && Holds(x.ranges, pos)
      ensures forall x :: x in inactive ==> x in old(inactive) || (x in old(active) && InHole(x, pos))
    {
      hide NoDup, Ordered, Bounded, Holds;
      var i := 0;
      while i < |active|
        invariant i <= |active| && NoDup(active + inactive) && Tracked(old(active + inactive), pos)
        invariant forall x :: x in active ==> x in old(active)
        invariant forall j :: 0 <= j < i ==> Holds(active[j].ranges, pos)
        invariant forall x :: x in inactive ==> x in old(inactive) || (x in old(active) && InHole(x, pos))
        decreases |active| - i
      {
        var a := active[i];
        assert a in active && Proper(a);
        if a.End() <= pos {
          Dropped(active, inactive, i);
          active := active[..i] + active[i + 1..];
          continue;
        }
        var inside := a.Contain(pos);
        if !inside {
          Moved(active, inactive, i);
          inactive := inactive + [a];
          active := active[..i] + active[i + 1..];
          continue;
        }
        i := i + 1;
      }
    }

    /**
      Drops the inactive intervals that are over at `pos` and reactivates those
      that hold it.  Behind a reactivated interval the next one is passed over;
      behind the last one the walk ends.
     */
    method SweepInactive(pos: nat)
      requires AllProper(inactive) && NoDup(active + inactive)
      modifies this`active, this`inactive
      ensures NoDup(active + inactive) && Tracked(old(active + inactive), pos)
      ensures forall x :: x in active ==> x in old(active) || (x in old(inactive) && Holds(x.ranges, pos))
      ensures forall x :: x in inactive ==> x in old(inactive)
    {
      hide NoDup, Ordered, Bounded, Holds;
      var i := 0;
      while i < |inactive|
        invariant i <= |inactive| && NoDup(active + inactive) && Tracked(old(active + inactive), pos)
        invariant forall x :: x in inactive ==> x in old(inactive)
        invariant forall x :: x in active ==> x in old(active) || (x in old(inactive) && Holds(x.ranges, pos))
        decreases |inactive| - i
      {
        var a := inactive[i];
        assert a in inactive && Proper(a);
        if a.End() <= pos {
          Swapped(active, inactive);
          Dropped(inactive, active, i);
          inactive := inactive[..i] + inactive[i + 1..];
          Swapped(inactive, active);
          continue;
        }
        var inside := a.Contain(pos);
        if inside {
          Swapped(active, inactive);
          Moved(inactive, active, i);
          active := active + [a];
          inactive := inactive[..i] + inactive[i + 1..];
          Swapped(inactive, active);
        }
        i := if i < |inactive| then i + 1 else i;
      }
    }

    /** Intervals leave the two lists only when they are over. */
    ghost predicate Tracked(before: seq<LiveInterval>, pos: nat)
      reads this`active, this`inactive, before
    {
      forall x :: x in before ==> x in active || x in inactive || (x.ranges != [] && x.End() <= pos)
    }

    /** Blocked, or in a register of its class. */
    ghost predicate Settled(x: LiveInterval, blk: set<LiveInterval>)
      reads x
    {
      && (x.reg == REG_UNKNOWN <==> x in blk)
      && (x.reg != REG_UNKNOWN ==> x.reg in Allocatable(target, x.RegCls()))
    }

    /** The intervals `done` are handled: active, inactive, over at `pos`, or blocked. */
    ghost predicate Handled(done: seq<LiveInterval>, act: seq<LiveInterval>, inact: seq<LiveInterval>,
                            blk: set<LiveInterval>, pos: nat)
      reads done
    {
      && NoDup(act + inact)
      && (forall x :: x in act + inact ==> x in done && x.reg != REG_UNKNOWN)
      && (forall x :: x in done ==> x.ranges != [] && Settled(x, blk))
      && (forall x :: x in done ==> x.reg == REG_UNKNOWN || x in act || x in inact || x.End() <= pos)
      && (forall x :: x in blk ==> x in done)
      && (forall x, y :: x in done && y in done ==> !Conflict(x, y))
    }

    ghost predicate Scanned(act: seq<LiveInterval>, inact: seq<LiveInterval>, n: nat, pos: nat)
      reads this`blocked, liInfo
    {
      && n <= |liInfo| && Handled(liInfo[..n], act, inact, blocked, pos)
      && forall x :: x in liInfo[n..] ==> x.reg == REG_UNKNOWN
    }

    /** `cur` is the interval number `n`. */
    ghost predicate Next(cur: LiveInterval, n: nat)
      reads cur`ranges
    {
      n < |liInfo| && cur == liInfo[n] && cur in liInfo && Proper(cur)
    }

    lemma ScannedKnown(act: seq<LiveInterval>, inact: seq<LiveInterval>, n: nat, pos: nat)
      requires AllProper(liInfo) && Scanned(act, inact, n, pos)
      ensures AllProper(act) && AllProper(inact) && RegsKnown(act) && RegsKnown(inact)
      ensures NoDup(act + inact)
    {
      hide NoDup, Conflict, Proper;
      forall x | x in act + inact
        ensures Proper(x) && x.reg < |target(x.RegCls())|
      {
        assert x in liInfo[..n] && x in liInfo && Settled(x, blocked);
        assert x.reg in Allocatable(target, x.RegCls());
      }
      assert forall x :: x in act ==> x in act + inact;
      assert forall x :: x in inact ==> x in act + inact;
    }

    /** The sweep keeps every handled interval in a list until it is over. */
    lemma Rescanned(act: seq<LiveInterval>, inact: seq<LiveInterval>, n: nat, pos: nat, pos': nat)
      requires Scanned(act, inact, n, pos) && pos <= pos' && NoDup(active + inactive)
      requires Tracked(act + inact, pos')
      requires forall x :: x in active + inactive ==> x in act + inact
      ensures Scanned(active, inactive, n, pos')
    {
      hide NoDup, Conflict, Settled;
      forall x | x in liInfo[..n]
        ensures x.reg == REG_UNKNOWN || x in active || x in inactive || x.End() <= pos'
      {
        if x in act || x in inact {
          assert x in act + inact;
        }
      }
    }

    /** No handled interval in register `r` of the class meets these ranges. */
    ghost predicate NoClash(r: nat, rc: nat, ranges: seq<Range>, done: seq<LiveInterval>)
      reads done
    {
      forall x :: x in done && x.RegCls() == rc && x.reg == r ==>
        !ShareSlot(x.ranges, ranges) && !ShareSlot(ranges, x.ranges)
    }

    lemma UsableSafe(cur: LiveInterval, n: nat, r: nat)
      requires AllProper(liInfo) && Next(cur, n)
      requires Scanned(active, inactive, n, cur.Start()) && Usable(r, cur) && r != REG_UNKNOWN
      ensures NoClash(r, cur.RegCls(), cur.ranges, liInfo[..n])
    {
      hide NoDup, Settled, Conflict, Holds, Ordered;
      assert Proper(cur);
      forall x | x in liInfo[..n] && x.RegCls() == cur.RegCls() && x.reg == r
        ensures !ShareSlot(x.ranges, cur.ranges) && !ShareSlot(cur.ranges, x.ranges)
      {
        assert x in liInfo && Proper(x);
        if x.End() <= cur.Start() {
          NoSharedPast(x.ranges, cur.ranges);
        } else {
          assert x in inactive;
        }
      }
    }

    /** The two lists miss nothing: a register is usable exactly when no earlier interval that holds it is met. */
    lemma UsableOpen(cur: LiveInterval, n: nat, shapes: seq<Shape>, r: nat)
      requires ValidTarget(target) && AllProper(liInfo) && Next(cur, n) && shapes == Shapes(liInfo)
      requires Scanned(active, inactive, n, cur.Start()) && forall x :: x in active ==> Holds(x.ranges, cur.Start())
      ensures Usable(r, cur) <==> Open(target, shapes, Regs(liInfo), n, r)
    {
      hide NoDup, Settled, Conflict, Holds, Ordered, Bounded;
      var regs := Regs(liInfo);
      assert shapes[n] == Shape(cur.RegCls(), cur.ranges);
      if Usable(r, cur) {
        assert r < |target(cur.RegCls())| <= REG_UNKNOWN;
        UsableSafe(cur, n, r);
        forall j: nat | Rival(shapes, n, j) ensures regs[j] != r {
          assert liInfo[j] == liInfo[..n][j] && shapes[j] == Shape(liInfo[j].RegCls(), liInfo[j].ranges);
        }
      }
      if Open(target, shapes, regs, n, r) {
        FirstHeldAt(cur.ranges);
        forall a | a in active + inactive && a.RegCls() == cur.RegCls() && a.reg == r
          ensures !ShareSlot(a.ranges, cur.ranges)
        {
          var j :| 0 <= j < |liInfo[..n]| && liInfo[..n][j] == a;
          assert shapes[j] == Shape(a.RegCls(), a.ranges) && !Rival(shapes, n, j);
        }
      }
    }

    /** When nothing is inactive, a register that is not usable is held here. */
    lemma BusyAt(cur: LiveInterval, n: nat, shapes: seq<Shape>, r: nat) returns (i: nat)
      requires Next(cur, n) && shapes == Shapes(liInfo)
      requires Scanned(active, inactive, n, cur.Start()) && inactive == []
      requires forall x :: x in active ==> Holds(x.ranges, cur.Start())
      requires r in Allocatable(target, cur.RegCls()) && !Usable(r, cur)
      ensures i < n < |shapes| && i in Overlap(shapes, cur.RegCls(), cur.Start()) && liInfo[i].reg == r
    {
      hide NoDup, Settled, Conflict, Holds, ShareSlot, Allocatable, Proper;
      var a :| a in active && a.RegCls() == cur.RegCls() && a.reg == r;
      assert a in active + inactive;
      i :| 0 <= i < |liInfo[..n]| && liInfo[..n][i] == a;
      assert shapes[i] == Shape(a.RegCls(), a.ranges);
    }

    /** When no register is usable and nothing is inactive, too many intervals overlap here. */
    lemma NoneUsable(cur: LiveInterval, n: nat, shapes: seq<Shape>)
      requires Next(cur, n) && shapes == Shapes(liInfo)
      requires Scanned(active, inactive, n, cur.Start()) && inactive == []
      requires forall x :: x in active ==> Holds(x.ranges, cur.Start())
      requires forall r: nat :: !Usable(r, cur)
      ensures |Overlap(shapes, cur.RegCls(), cur.Start())| > |Allocatable(target, cur.RegCls())|
    {
      var regs, over := Allocatable(target, cur.RegCls()), Overlap(shapes, cur.RegCls(), cur.Start());
      FirstHeldAt(cur.ranges);
      assert n in over;
      var ids := over - {n};
      hide Usable, Scanned, Holds, Allocatable, Overlap, Shapes;
      var reg := map i: nat | i < n :: liInfo[i].reg;
      forall r | r in regs ensures exists i :: i in ids && i in reg && reg[i] == r {
        var i := BusyAt(cur, n, shapes, r);
        assert i in ids && reg[i] == r;
      }
      FewerRegs(ids, reg, regs);
    }

    /** When every interval has a register, no more overlap than there are registers. */
    lemma EnoughRegs(pos: nat, shapes: seq<Shape>)
      requires shapes == Shapes(liInfo) && NoDup(liInfo) && Scanned(active, inactive, |liInfo|, pos) && blocked == {}
      ensures LowPressure(shapes, target)
    {
      assert liInfo[..|liInfo|] == liInfo;
      var reg := map i: nat | i < |liInfo| :: liInfo[i].reg;
      forall rc: nat, slot: nat ensures |Overlap(shapes, rc, slot)| <= |Allocatable(target, rc)| {
        var ids := Overlap(shapes, rc, slot);
        forall i | i in ids ensures i in reg && reg[i] in Allocatable(target, rc) {
          assert liInfo[i] in liInfo && Settled(liInfo[i], blocked);
        }
        forall i, j | i in ids && j in ids && i != j ensures reg[i] != reg[j] {
          assert liInfo[i] in liInfo && liInfo[j] in liInfo && Settled(liInfo[i], blocked);
          assert !Conflict(liInfo[i], liInfo[j]);
          assert ShareSlot(liInfo[i].ranges, liInfo[j].ranges);
        }
        FewerIntervals(ids, reg, Allocatable(target, rc));
      }
    }

    /**
      Handled intervals never conflict, not even when one sits in a hole of
      another; an interval has no register exactly when it was blocked.  When no
      interval has a hole, none is blocked exactly when the pressure is low.
     */
    method LinearScan(ghost shapes: seq<Shape>) returns (verified: bool)
      requires ValidTarget(target) && AllProper(liInfo) && ByStart(liInfo) && NoDup(liInfo)
      requires active == [] && inactive == [] && blocked == {} && dregLi == map[] && shapes == Shapes(liInfo)
      requires forall x :: x in liInfo ==> x.reg == REG_UNKNOWN
      modifies this, liInfo`reg
      ensures forall x, y :: x in liInfo && y in liInfo ==> !Conflict(x, y)
      ensures forall x :: x in liInfo ==> Settled(x, blocked)
      ensures forall x :: x in blocked ==> x in liInfo
      ensures shapes == Shapes(liInfo) && AllFirstFit(target, shapes, Regs(liInfo), |liInfo|)
      ensures RowsHold(dregLi, liInfo) && verified
      ensures blocked == {} ==> LowPressure(shapes, target)
      ensures HoleFree(shapes) && LowPressure(shapes, target) ==> blocked == {}
    {
      hide Conflict, Settled, LowPressure, HoleFree, RowsHold, NeighboursFine, NoDup, Scanned, AllProper, ByStart,
           Proper, FirstFit, AllFirstFit, Shapes, Regs, Allocatable, ShareSlot;
      ghost var pos := HandleAll(shapes);
      assert liInfo[..|liInfo|] == liInfo;
      AllHandled(pos);
      if blocked == {} {
        EnoughRegs(pos, shapes);
      }
      RowsProper();
      RowsFine();
      verified := VerifyDregLi();
    }

    lemma AllHandled(pos: nat)
      requires Scanned(active, inactive, |liInfo|, pos)
      ensures forall x, y :: x in liInfo && y in liInfo ==> !Conflict(x, y)
      ensures forall x :: x in liInfo ==> Settled(x, blocked)
      ensures forall x :: x in blocked ==> x in liInfo
    {
      hide Conflict, Settled, NoDup;
      assert liInfo[..|liInfo|] == liInfo;
    }

    /** The first `n` intervals are handled. */
    ghost predicate Progress(n: nat, pos: nat, shapes: seq<Shape>)
      reads this, liInfo
    {
      && n <= |liInfo| && shapes == Shapes(liInfo)
      && Scanned(active, inactive, n, pos) && RowsHold(dregLi, liInfo[..n])
      && AllFirstFit(target, shapes, Regs(liInfo), n)
      && (HoleFree(shapes) ==> inactive == [] && (LowPressure(shapes, target) ==> blocked == {}))
    }

    method HandleAll(ghost shapes: seq<Shape>) returns (ghost pos: nat)
      requires ValidTarget(target) && AllProper(liInfo) && ByStart(liInfo) && NoDup(liInfo)
      requires active == [] && inactive == [] && blocked == {} && dregLi == map[] && shapes == Shapes(liInfo)
      requires forall x :: x in liInfo ==> x.reg == REG_UNKNOWN
      modifies this, liInfo`reg
      ensures Progress(|liInfo|, pos, shapes)
    {
      NoneFitted(shapes);
      hide LowPressure, HoleFree, RowsHold, Scanned, Shapes, Regs, FirstFit, NoDup, AllProper, ByStart;
      NoRows();
      NothingHandled();
      assert liInfo[..0] == [];
      pos := 0;
      var unhandled := liInfo;
      ghost var n: nat := 0;
      assert Progress(n, pos, shapes);
      hide Progress, ValidTarget;
      while unhandled != []
        invariant n <= |liInfo| && unhandled == liInfo[n..] && Progress(n, pos, shapes)
        invariant n < |liInfo| ==> pos <= liInfo[n].Start()
        decreases |unhandled|
      {
        var cur := unhandled[0];
        unhandled := unhandled[1..];
        StartNext(n);
        Handle(cur, n, pos, shapes);
        pos := cur.Start();
        n := n + 1;
      }
    }

    lemma StartNext(n: nat)
      requires n < |liInfo| && ByStart(liInfo)
      ensures n + 1 < |liInfo| ==> liInfo[n].Start() <= liInfo[n + 1].Start()
    {
    }

    /** One round of the scan. */
    method Handle(cur: LiveInterval, ghost n: nat, ghost pos: nat, ghost shapes: seq<Shape>)
      requires ValidTarget(target) && AllProper(liInfo) && ByStart(liInfo) && NoDup(liInfo)
      requires n < |liInfo| && cur == liInfo[n] && Progress(n, pos, shapes) && pos <= cur.Start()
      modifies this`active, this`inactive, this`dregLi, this`blocked, cur`reg
      ensures Progress(n + 1, cur.Start(), shapes)
    {
      hide LowPressure, HoleFree, RowsHold, Scanned, Shapes, Regs, FirstFit, NoDup, ValidTarget, AllProper, Next,
           AllFirstFit;
      NextIsProper(n);
      Sweep(cur, n, pos, shapes);
      ghost var before := Regs(liInfo);
      Assign(cur, n, shapes);
      FitsKept(before, n, shapes);
    }

    lemma NoneFitted(shapes: seq<Shape>)
      requires |shapes| == |liInfo|
      ensures AllFirstFit(target, shapes, Regs(liInfo), 0)
    {
    }

    lemma FitsKept(before: seq<nat>, n: nat, shapes: seq<Shape>)
      requires n < |liInfo| == |shapes| == |before| && Regs(liInfo) == before[n := liInfo[n].reg]
      requires AllFirstFit(target, shapes, before, n) && FirstFit(target, shapes, Regs(liInfo), n)
      ensures AllFirstFit(target, shapes, Regs(liInfo), n + 1)
    {
      hide FirstFit;
      var regs := before[n := liInfo[n].reg];
      forall i: nat | i < n ensures FirstFit(target, shapes, regs, i) {
        FirstFitKept(target, shapes, before, regs, i);
      }
    }

    lemma NothingHandled()
      requires blocked == {} && forall x :: x in liInfo ==> x.reg == REG_UNKNOWN
      ensures Scanned([], [], 0, 0)
    {
    }

    lemma NextIsProper(n: nat)
      requires AllProper(liInfo) && n < |liInfo|
      ensures Next(liInfo[n], n)
    {
    }

    lemma NoRows()
      requires dregLi == map[]
      ensures RowsHold(dregLi, [])
    {
      forall rc: nat, r: nat ensures RowHolds(RowOf(dregLi, rc, r), rc, r, []) {
        assert RowOf(dregLi, rc, r) == [];
      }
    }

    lemma RowsProper()
      requires AllProper(liInfo) && RowsHold(dregLi, liInfo)
      ensures forall key, x :: key in dregLi && x in dregLi[key] ==> Proper(x)
    {
      forall key, x | key in dregLi && x in dregLi[key] ensures Proper(x) {
        assert RowHolds(RowOf(dregLi, key.0, key.1), key.0, key.1, liInfo);
      }
    }

    /** Brings the two lists to the start of the next interval. */
    method Sweep(cur: LiveInterval, ghost n: nat, ghost pos: nat, ghost shapes: seq<Shape>)
      requires AllProper(liInfo) && ByStart(liInfo) && shapes == Shapes(liInfo)
      requires Next(cur, n) && Scanned(active, inactive, n, pos) && pos <= cur.Start()
      modifies this`active, this`inactive
      ensures Scanned(active, inactive, n, cur.Start())
      ensures forall x :: x in active ==> Holds(x.ranges, cur.Start())
      ensures HoleFree(shapes) && old(inactive) == [] ==> inactive == []
    {
      hide NoDup, Conflict, Settled, Holds, Ordered, Bounded, InHole, Handled, Proper;
      ghost var act, inact := active, inactive;
      ScannedKnown(act, inact, n, pos);
      SweepActive(cur.Start());
      if HoleFree(shapes) && inact == [] {
        NoneInHole(cur, n, shapes, act, inact, pos);
      }
      forall x | x in inactive ensures Proper(x) {
        assert x in act || x in inact;
      }
      SweepInactive(cur.Start());
      assert inactive != [] ==> inactive[0] in inactive;
      Rescanned(act, inact, n, pos, cur.Start());
    }

    /** Without holes an active interval is never set aside. */
    lemma NoneInHole(cur: LiveInterval, n: nat, shapes: seq<Shape>, act: seq<LiveInterval>, inact: seq<LiveInterval>,
                     pos: nat)
      requires ByStart(liInfo) && shapes == Shapes(liInfo) && HoleFree(shapes) && Next(cur, n)
      requires Scanned(act, inact, n, pos) && inact == []
      requires forall x :: x in inactive ==> x in inact || (x in act && InHole(x, cur.Start()))
      ensures inactive == []
    {
      hide NoDup, Conflict, Settled, Proper, InHole, Holds;
      if inactive != [] {
        var x := inactive[0];
        assert x in inactive && x in act + inact;
        var i :| 0 <= i < |liInfo[..n]| && liInfo[..n][i] == x;
        assert liInfo[i].Start() <= liInfo[n].Start();
        assert shapes[i].ranges == x.ranges;
        NotInHole(x, cur.Start());
        assert false;
      }
    }

    lemma NotInHole(x: LiveInterval, pos: nat)
      requires |x.ranges| == 1 && x.Start() <= pos
      ensures !InHole(x, pos)
    {
      if pos < x.End() {
        assert x.ranges[0] in x.ranges && x.ranges[0].Contain(pos);
      }
    }

    lemma NotHandledYet(cur: LiveInterval, n: nat, act: seq<LiveInterval>, inact: seq<LiveInterval>)
      requires Next(cur, n) && NoDup(liInfo) && Scanned(act, inact, n, cur.Start())
      ensures cur.reg == REG_UNKNOWN && cur !in liInfo[..n] && cur !in liInfo[n + 1..]
      ensures liInfo[..n + 1] == liInfo[..n] + [cur]
      ensures forall x :: x in liInfo[n + 1..] ==> x in liInfo[n..]
    {
      hide Conflict, Settled, Proper;
      assert cur == liInfo[n..][0];
    }

    /** A blocked interval joins the handled ones. */
    lemma BlockedJoins(cur: LiveInterval, done: seq<LiveInterval>, act: seq<LiveInterval>, inact: seq<LiveInterval>,
                       blk: set<LiveInterval>, pos: nat)
      requires Handled(done, act, inact, blk, pos) && cur !in done && cur.ranges != [] && cur.reg == REG_UNKNOWN
      ensures Handled(done + [cur], act, inact, blk + {cur}, pos)
    {
      hide NoDup, ShareSlot;
    }

    /** An interval with a register of its own joins the handled ones. */
    lemma ActiveJoins(cur: LiveInterval, done: seq<LiveInterval>, act: seq<LiveInterval>, inact: seq<LiveInterval>,
                      blk: set<LiveInterval>, pos: nat)
      requires Handled(done, act, inact, blk, pos) && cur !in done && cur.ranges != []
      requires cur.reg != REG_UNKNOWN && cur.reg in Allocatable(target, cur.RegCls())
      requires NoClash(cur.reg, cur.RegCls(), cur.ranges, done)
      ensures Handled(done + [cur], act + [cur], inact, blk, pos)
    {
      hide NoDup, ShareSlot;
      NoDupWith(act, inact, cur);
      forall x, y | x in done + [cur] && y in done + [cur] ensures !Conflict(x, y) {
        assert x in done && y in done ==> !Conflict(x, y);
      }
    }

    // ----- the intervals of each register -------------------------------------------

    /** The row of a register lists intervals that were given it, in the order of their starts. */
    ghost predicate RowHolds(row: seq<LiveInterval>, rc: nat, r: nat, done: seq<LiveInterval>)
      reads done
    {
      && NoDup(row)
      && (forall x :: x in row ==> x in done && x.RegCls() == rc && x.reg == r && r != REG_UNKNOWN && x.ranges != [])
      && (forall i, j :: 0 <= i < j < |row| && row[i] in done && row[j] in done ==>
            (row[i].ranges != [] && row[j].ranges != [] ==> row[i].Start() <= row[j].Start()))
    }

    /** Every handled interval is listed under its register, and nowhere else. */
    ghost predicate RowsHold(rows: map<(nat, nat), seq<LiveInterval>>, done: seq<LiveInterval>)
      reads done
    {
      && (forall rc: nat, r: nat :: RowHolds(RowOf(rows, rc, r), rc, r, done))
      && (forall x :: x in done && x.reg != REG_UNKNOWN ==> x in RowOf(rows, x.RegCls(), x.reg))
    }

    lemma RowsJoin(cur: LiveInterval, done: seq<LiveInterval>, before: map<(nat, nat), seq<LiveInterval>>)
      requires cur !in done && cur.ranges != [] && forall x :: x in done && x.ranges != [] ==> x.Start() <= cur.Start()
      requires RowsHold(before, done)
      requires if cur.reg == REG_UNKNOWN then dregLi == before
               else dregLi == before[(cur.RegCls(), cur.reg) := RowOf(before, cur.RegCls(), cur.reg) + [cur]]
      ensures RowsHold(dregLi, done + [cur])
    {
      forall rc: nat, r: nat ensures RowHolds(RowOf(dregLi, rc, r), rc, r, done + [cur]) {
        var row := RowOf(before, rc, r);
        assert RowHolds(row, rc, r, done);
        assert RowOf(dregLi, rc, r) == if cur.reg != REG_UNKNOWN && rc == cur.RegCls() &&
               r == cur.reg then row + [cur] else row;
      }
    }

    /** Checks each register's intervals, neighbour by neighbour. */
    method VerifyDregLi() returns (ok: bool)
      requires forall key, x :: key in dregLi && x in dregLi[key] ==> Proper(x)
      ensures ok <==> forall key :: key in dregLi ==> NeighboursFine(dregLi[key])
    {
      var todo := dregLi.Keys;
      while todo != {}
        invariant todo <= dregLi.Keys
        invariant forall key :: key in dregLi && key !in todo ==> NeighboursFine(dregLi[key])
        decreases todo
      {
        var key :| key in todo;
        var fine := VerifyRow(dregLi[key]);
        if !fine {
          return false;
        }
        todo := todo - {key};
      }
      return true;
    }

    method VerifyRow(row: seq<LiveInterval>) returns (ok: bool)
      requires forall x :: x in row ==> Proper(x)
      ensures ok <==> NeighboursFine(row)
    {
      hide Ordered, Bounded, ShareSlot, Holds;
      for i := 0 to |row|
        invariant forall j: nat :: j < i && j + 1 < |row| ==> NeighbourFine(row, j)
      {
        if i + 1 == |row| {
          return true;
        }
        assert row[i] in row && row[i + 1] in row && Proper(row[i]) && Proper(row[i + 1]);
        if row[i].Start() > row[i + 1].Start() {
          assert !NeighbourFine(row, i);
          return false;
        }
        var pos := row[i].IntersectPos(row[i + 1]);
        if pos != INVALID_MAX_ID {
          assert !NeighbourFine(row, i);
          return false;
        }
      }
      return true;
    }

    ghost predicate NeighbourFine(row: seq<LiveInterval>, j: nat)
      requires j + 1 < |row|
      reads row
    {
      && row[j].ranges != [] && row[j + 1].ranges != [] && row[j].Start() <= row[j + 1].Start()
      && !ShareSlot(row[j].ranges, row[j + 1].ranges)
    }

    ghost predicate NeighboursFine(row: seq<LiveInterval>)
      reads row
    {
      forall j: nat :: j + 1 < |row| ==> NeighbourFine(row, j)
    }

    lemma RowsFine()
      requires RowsHold(dregLi, liInfo) && forall x, y :: x in liInfo && y in liInfo ==> !Conflict(x, y)
      ensures forall key :: key in dregLi ==> NeighboursFine(dregLi[key])
    {
      forall key | key in dregLi ensures NeighboursFine(dregLi[key]) {
        var (rc, r) := key;
        var row := RowOf(dregLi, rc, r);
        assert RowHolds(row, rc, r, liInfo);
        forall j: nat | j + 1 < |row| ensures NeighbourFine(row, j) {
          assert row[j] in row && row[j + 1] in row && !Conflict(row[j], row[j + 1]);
        }
      }
    }

    /** The attempt to find a register, seen from all intervals before this one. */
    method TryFree(cur: LiveInterval, ghost n: nat, ghost shapes: seq<Shape>) returns (res: bool)
      requires ValidTarget(target) && AllProper(liInfo) && NoDup(liInfo) && shapes == Shapes(liInfo)
      requires Next(cur, n) && Scanned(active, inactive, n, cur.Start()) && cur.reg == REG_UNKNOWN
      requires forall x :: x in active ==> Holds(x.ranges, cur.Start())
      modifies this`dregLi, this`blocked, cur`reg
      ensures res <==> cur.reg != REG_UNKNOWN
      ensures Regs(liInfo) == old(Regs(liInfo))[n := cur.reg] && FirstFit(target, shapes, Regs(liInfo), n)
      ensures if res then var r := cur.reg; old(Usable(r, cur)) else forall r: nat :: !old(Usable(r, cur))
      ensures res ==> blocked == old(blocked) && var r := cur.reg;
                dregLi == old(dregLi)[(cur.RegCls(), r) := RowOf(old(dregLi), cur.RegCls(), r) + [cur]]
      ensures !res ==> blocked == old(blocked) + {cur} && dregLi == old(dregLi)
    {
      assert forall i :: 0 <= i < |liInfo| && i != n ==> liInfo[i] != cur;
      hide Conflict, Settled, Holds, Ordered, Bounded, RegFree, NoClash, Handled, NoDup, AllProper, Shapes, Open,
           FirstFit, Usable, Allocatable;
      ScannedKnown(active, inactive, n, cur.Start());
      forall r: nat ensures Usable(r, cur) <==> Open(target, shapes, Regs(liInfo), n, r) {
        UsableOpen(cur, n, shapes, r);
      }
      assert shapes[n].cls == cur.RegCls() by {
        assert Shapes(liInfo)[n] == Shape(liInfo[n].RegCls(), liInfo[n].ranges);
      }
      ghost var before := Regs(liInfo);
      forall r: nat | Open(target, shapes, before, n, r) ensures r < |target(cur.RegCls())| <= REG_UNKNOWN {
        OpenKnown(shapes, before, n, r);
      }
      res := AllocFreeReg(cur);
      RegSet(before, n);
      FirstIsFirstFit(target, shapes, before, n, cur.reg);
    }

    lemma OpenKnown(shapes: seq<Shape>, regs: seq<nat>, i: nat, r: nat)
      requires ValidTarget(target) && i < |shapes| <= |regs| && Open(target, shapes, regs, i, r)
      ensures r < |target(shapes[i].cls)| <= REG_UNKNOWN
    {
    }

    /** Gives the next interval a register, or records it as blocked. */
    method Assign(cur: LiveInterval, ghost n: nat, ghost shapes: seq<Shape>)
      requires ValidTarget(target) && AllProper(liInfo) && NoDup(liInfo) && shapes == Shapes(liInfo)
      requires Next(cur, n) && Scanned(active, inactive, n, cur.Start())
      requires forall x :: x in active ==> Holds(x.ranges, cur.Start())
      requires ByStart(liInfo) && RowsHold(dregLi, liInfo[..n])
      modifies this`active, this`dregLi, this`blocked, cur`reg
      ensures RowsHold(dregLi, liInfo[..n + 1])
      ensures Regs(liInfo) == old(Regs(liInfo))[n := cur.reg] && FirstFit(target, shapes, Regs(liInfo), n)
      ensures Scanned(active, inactive, n + 1, cur.Start()) && shapes == Shapes(liInfo)
      ensures inactive == [] && LowPressure(shapes, target) ==> blocked == old(blocked)
    {
      hide Conflict, Settled, Holds, Ordered, Bounded, RegFree, NoClash, Handled, NoDup, RowsHold, AllProper, ByStart,
           Shapes, Regs, FirstFit;
      ScannedKnown(active, inactive, n, cur.Start());
      forall r: nat | Usable(r, cur) && r != REG_UNKNOWN
        ensures NoClash(r, cur.RegCls(), cur.ranges, liInfo[..n])
      {
        UsableSafe(cur, n, r);
      }
      if inactive == [] && forall r: nat :: !Usable(r, cur) {
        NoneUsable(cur, n, shapes);
      }
      NotHandledYet(cur, n, active, inactive);
      StartsBefore(n);
      var res := TryFree(cur, n, shapes);
      if !res {
        res := AllocBlockedReg(cur);
      }
      if res {
        ActiveJoins(cur, liInfo[..n], active, inactive, blocked, cur.Start());
        active := active + [cur];
      } else {
        BlockedJoins(cur, liInfo[..n], active, inactive, old(blocked), cur.Start());
      }
      RowsJoin(cur, liInfo[..n], old(dregLi));
    }

    lemma RegSet(before: seq<nat>, n: nat)
      requires n < |liInfo| == |before|
      requires forall i :: 0 <= i < |liInfo| && i != n ==> before[i] == liInfo[i].reg
      ensures Regs(liInfo) == before[n := liInfo[n].reg]
    {
    }

    lemma StartsBefore(n: nat)
      requires n < |liInfo| && ByStart(liInfo)
      ensures forall x :: x in liInfo[..n] ==> x.ranges != [] && x.Start() <= liInfo[n].Start()
    {
    }
  }

  lemma NoDupWith(a: seq<LiveInterval>, b: seq<LiveInterval>, x: LiveInterval)
    requires NoDup(a + b) && x !in a + b
    ensures NoDup(a + [x] + b)
  {
    var out := a + [x] + b;
    forall i, j | 0 <= i < j < |out| ensures out[i] != out[j] {
      assert i != |a| ==> out[i] == (a + b)[if i < |a| then i else i - 1];
      assert j != |a| ==> out[j] == (a + b)[if j < |a| then j else j - 1];
    }
  }

  lemma FirstHeldAt(rs: seq<Range>)
    requires Ordered(rs) && rs != []
    ensures Holds(rs, rs[0].start)
  {
    assert rs[0] in rs && rs[0].Contain(rs[0].start);
  }

  /** An interval that is over shares no slot with a later one. */
  lemma NoSharedPast(a: seq<Range>, b: seq<Range>)
    requires Ordered(a) && Ordered(b) && a != [] && b != [] && a[|a| - 1].end <= b[0].start
    ensures !ShareSlot(a, b) && !ShareSlot(b, a)
  {
    forall p: nat ensures !(Holds(a, p) && Holds(b, p)) {
      if Holds(a, p) { HeldBeforeEnd(a, p); }
      if Holds(b, p) { HeldBeforeEnd(b, p); }
    }
  }

  lemma Swapped(a: seq<LiveInterval>, b: seq<LiveInterval>)
    requires NoDup(a + b)
    ensures NoDup(b + a)
  {
    forall i, j | 0 <= i < j < |b + a| ensures (b + a)[i] != (b + a)[j] {
      var i' := if i < |b| then |a| + i else i - |b|;
      var j' := if j < |b| then |a| + j else j - |b|;
      assert (a + b)[i'] == (b + a)[i] && (a + b)[j'] == (b + a)[j];
    }
  }

  lemma Dropped(a: seq<LiveInterval>, b: seq<LiveInterval>, i: nat)
    requires NoDup(a + b) && i < |a|
    ensures NoDup(a[..i] + a[i + 1..] + b)
    ensures forall x :: x in a[..i] + a[i + 1..] <==> x in a && x != a[i]
  {
    var out := a[..i] + a[i + 1..] + b;
    forall j, k | 0 <= j < k < |out| ensures out[j] != out[k] {
      assert out[j] == (a + b)[if j < i then j else j + 1];
      assert out[k] == (a + b)[if k < i then k else k + 1];
    }
    forall x | x in a && x != a[i] ensures x in a[..i] + a[i + 1..] {
      assert a == a[..i] + [a[i]] + a[i + 1..];
    }
    forall x | x in a[..i] + a[i + 1..] ensures x in a && x != a[i] {
      var j :| 0 <= j < |a[..i] + a[i + 1..]| && (a[..i] + a[i + 1..])[j] == x;
      assert x == (a + b)[if j < i then j else j + 1] && a[i] == (a + b)[i];
    }
  }

  lemma Moved(a: seq<LiveInterval>, b: seq<LiveInterval>, i: nat)
    requires NoDup(a + b) && i < |a|
    ensures NoDup(a[..i] + a[i + 1..] + (b + [a[i]]))
    ensures forall x :: x in a[..i] + a[i + 1..] <==> x in a && x != a[i]
  {
    Dropped(a, b, i);
    var out := a[..i] + a[i + 1..] + (b + [a[i]]);
    var n := |out| - 1;
    forall j, k | 0 <= j < k < |out| ensures out[j] != out[k] {
      assert out[..n] == a[..i] + a[i + 1..] + b;
      if k == n {
        assert out[j] == (a + b)[if j < i then j else j + 1] && a[i] == (a + b)[i];
      } else {
        assert out[j] == out[..n][j] && out[k] == out[..n][k];
      }
    }
  }
}
