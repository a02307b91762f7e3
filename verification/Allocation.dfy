/** Register allocation as a whole: intervals, then the scan, then one register for each value. */
module Allocation {
  import opened Basics
  import opened LiveIntervals
  import opened Liveness
  import opened IntervalSweep
  import opened LiveIntervalBuilders
  import opened Lsras
  import opened Pressure
  import opened Execution
  import opened Moves
  import opened Rewriting
  import opened Emission
  import opened EntryRuns

  /** Every point of a path to a use lies in the interval, whether or not the graph is in strict form. */
  lemma PathCovered(g: Cfg, rs: seq<Range>, v: Value, path: seq<Pt>, i: nat, slot: nat)
    requires Done(g, rs, v, 0) && UsePath(g, v, path) && i < |path|
    requires SlotAt(g, path[i].b, path[i].k, slot)
    ensures Holds(rs, slot)
  {
    assert UsePath(g, v, path[i..]) by {
      assert forall j :: 0 <= j < |path| - i ==> path[i..][j] == path[i + j];
    }
    assert path[i..][0] == Pt(path[i].b, path[i].k);
    assert Live(g, v, path[i].b, path[i].k);
    assert Occupied(g, v, path[i].b, path[i].k);
  }

  /** In strict form an interval holds no slot at which its value is neither live nor just defined. */
  lemma NothingMore(g: Cfg, rs: seq<Range>, v: Value, slot: nat) returns (b: nat, k: nat)
    requires 0 < |g| && Done(g, rs, v, 0) && Strict(g) && Holds(rs, slot)
    ensures IsPoint(g, b, k) && SlotAt(g, b, k, slot) && Occupied(g, v, b, k)
  {
    hide Strict, Occupied;
    HeldInside(rs, BlockStart(g, 0), BlockStart(g, |g|), slot);
    b, k := SlotPoint(g, 0, slot);
  }

  /** The ranges of all values, and the register each was given. */
  ghost predicate Allocated(g: Cfg, ranges: map<Value, seq<Range>>, asg: Assignment) {
    && asg.Keys == ranges.Keys && AllDone(g, ranges)
    && (forall v, w :: v in asg && w in asg && v != w && RegOf(asg, v) == RegOf(asg, w) ==>
          !ShareSlot(ranges[v], ranges[w]))
  }

  lemma AllocatedSeparates(g: Cfg, ranges: map<Value, seq<Range>>, asg: Assignment)
    requires Allocated(g, ranges, asg)
    ensures Separates(g, asg)
  {
    hide Live, Strict;
    forall v, b: nat, k: nat | IsPoint(g, b, k) && Occupied(g, v, b, k)
      ensures v in asg && Holds(ranges[v], Slot(g, b, k))
    {
      OccupiedHeld(g, if v in ranges then ranges[v] else [], v, b, k);
    }
    forall v, w, b: nat, k: nat | IsPoint(g, b, k) && Occupied(g, v, b, k) && Occupied(g, w, b, k) && v != w
      ensures RegOf(asg, v) != RegOf(asg, w)
    {
      assert Holds(ranges[v], Slot(g, b, k)) && Holds(ranges[w], Slot(g, b, k));
    }
  }

  lemma OccupiedHeld(g: Cfg, rs: seq<Range>, v: Value, b: nat, k: nat)
    requires Done(g, rs, v, 0) && IsPoint(g, b, k) && Occupied(g, v, b, k)
    ensures Holds(rs, Slot(g, b, k)) && rs != []
  {
    hide Occupied, Strict;
    assert SlotAt(g, b, k, Slot(g, b, k));
  }

  lemma AllocatedNeeded(g: Cfg, ranges: map<Value, seq<Range>>, asg: Assignment)
    requires Allocated(g, ranges, asg) && Strict(g)
    ensures OnlyNeeded(g, asg)
  {
    hide Strict, Occupied;
    forall v | v in asg ensures exists b: nat, k: nat :: IsPoint(g, b, k) && Occupied(g, v, b, k) {
      var rs := ranges[v];
      SeparatedOrdered(rs);
      FirstHeldAt(rs);
      HeldInside(rs, BlockStart(g, 0), BlockStart(g, |g|), rs[0].start);
      var b, k := NothingMore(g, rs, v, rs[0].start);
    }
  }

  /** The intervals of a builder that has run: one for each value, complete, and listed. */
  ghost predicate Built(g: Cfg, valueLi: map<Value, LiveInterval>, li: seq<LiveInterval>,
                        ranges: map<Value, seq<Range>>)
    reads valueLi.Values`ranges
  {
    && (forall v :: v in valueLi ==> valueLi[v].value == v && valueLi[v] in li)
    && (forall x :: x in li ==> x.value in valueLi && valueLi[x.value] == x)
    && AllDone(g, ranges) && ranges == RangesIn(valueLi)
  }

  ghost function RangesIn(valueLi: map<Value, LiveInterval>): map<Value, seq<Range>>
    reads valueLi.Values`ranges
  {
    map v | v in valueLi :: valueLi[v].ranges
  }

  function RegsIn(valueLi: map<Value, LiveInterval>): Assignment
    reads valueLi.Values`reg
  {
    map v | v in valueLi :: valueLi[v].reg
  }

  lemma BuiltByRun(builder: LiveIntervalBuilder, li: seq<LiveInterval>)
    requires builder.Valid() && builder.AllDone(0) && BlockStart(builder.g, |builder.g|) <= SLOT_LIMIT
    requires forall v :: v in builder.valueLi ==> builder.valueLi[v] in li
    requires forall x :: x in li ==> x in builder.valueLi.Values
    ensures Built(builder.g, builder.valueLi, li, RangesIn(builder.valueLi))
    ensures AllDone(builder.g, RangesIn(builder.valueLi))
    ensures AllProper(li) && forall x :: x in li ==> x.reg == REG_UNKNOWN
  {
    forall x | x in li ensures Proper(x) && x.reg == REG_UNKNOWN {
      var v :| v in builder.valueLi && builder.valueLi[v] == x;
      assert builder.RangesOf(v) == x.ranges;
      assert Done(builder.g, x.ranges, v, 0);
      SeparatedOrdered(x.ranges);
    }
    hide Done;
    var ranges := RangesIn(builder.valueLi);
    forall v ensures Done(builder.g, if v in ranges then ranges[v] else [], v, 0) {
      assert builder.RangesOf(v) == if v in ranges then ranges[v] else [];
    }
  }

  lemma ScanAllocates(g: Cfg, valueLi: map<Value, LiveInterval>, lsra: Lsra, ranges: map<Value, seq<Range>>)
    requires Built(g, valueLi, lsra.liInfo, ranges)
    requires forall x, y :: x in lsra.liInfo && y in lsra.liInfo ==> !Conflict(x, y)
    requires lsra.blocked == {} && forall x :: x in lsra.liInfo ==> lsra.Settled(x, lsra.blocked)
    ensures Allocated(g, ranges, RegsIn(valueLi))
    ensures forall v :: v in valueLi ==> valueLi[v].reg in Allocatable(lsra.target, v.cls)
  {
    hide Done, ShareSlot;
    var asg := RegsIn(valueLi);
    forall v | v in asg ensures valueLi[v].reg != REG_UNKNOWN && asg[v] in Allocatable(lsra.target, v.cls) {
      assert lsra.Settled(valueLi[v], lsra.blocked);
    }
    forall v, w | v in asg && w in asg && v != w && RegOf(asg, v) == RegOf(asg, w)
      ensures !ShareSlot(ranges[v], ranges[w])
    {
      assert !Conflict(valueLi[v], valueLi[w]);
    }
  }

  /** As many intervals in the list hold a slot as values do. */
  lemma OverlapIs(g: Cfg, valueLi: map<Value, LiveInterval>, li: seq<LiveInterval>, ranges: map<Value, seq<Range>>,
                  rc: nat, slot: nat)
    requires Built(g, valueLi, li, ranges) && NoDup(li)
    ensures |Overlap(Shapes(li), rc, slot)| == |HeldBy(ranges, rc, slot)|
  {
    hide AllDone, Holds;
    var f := seq(|li|, i requires 0 <= i < |li| => li[i].value);
    forall v | v in HeldBy(ranges, rc, slot) ensures exists i :: i in Overlap(Shapes(li), rc, slot) && f[i] == v {
      var i :| 0 <= i < |li| && li[i] == valueLi[v];
      assert f[i] == v;
    }
    SameSize(Overlap(Shapes(li), rc, slot), f, HeldBy(ranges, rc, slot));
  }

  lemma ShapesFit(g: Cfg, valueLi: map<Value, LiveInterval>, li: seq<LiveInterval>, ranges: map<Value, seq<Range>>,
                  target: Target)
    requires Built(g, valueLi, li, ranges) && NoDup(li)
    ensures LowPressure(Shapes(li), target) <==> HeldFits(ranges, target)
    ensures (forall v :: v in ranges ==> |ranges[v]| == 1) ==> HoleFree(Shapes(li))
  {
    hide AllDone, Holds, Overlap, HeldBy, NoDup;
    forall rc: nat, slot: nat ensures |Overlap(Shapes(li), rc, slot)| == |HeldBy(ranges, rc, slot)| {
      OverlapIs(g, valueLi, li, ranges, rc, slot);
    }
    forall i | 0 <= i < |li| ensures li[i].value in ranges && Shapes(li)[i].ranges == ranges[li[i].value] {
      assert li[i] in li;
    }
  }

  lemma SameKeys(g: Cfg, valueLi: map<Value, LiveInterval>, li: seq<LiveInterval>, ranges: map<Value, seq<Range>>)
    requires Built(g, valueLi, li, ranges)
    ensures RegsIn(valueLi).Keys == ranges.Keys
  {
  }

  /** `v` has no register: each one of its class is held by a value whose interval shares a slot with that of `v`. */
  ghost predicate Crowded(target: Target, ranges: map<Value, seq<Range>>, asg: Assignment, v: Value) {
    && v in asg && v in ranges && asg[v] == REG_UNKNOWN
    && forall r :: r in Allocatable(target, v.cls) ==>
         exists w :: w in asg && w in ranges && w != v && w.cls == v.cls && asg[w] == r
                     && ShareSlot(ranges[w], ranges[v])
  }

  lemma BlockedCrowded(g: Cfg, valueLi: map<Value, LiveInterval>, lsra: Lsra, shapes: seq<Shape>,
                       ranges: map<Value, seq<Range>>, i: nat)
    requires Built(g, valueLi, lsra.liInfo, ranges) && shapes == Shapes(lsra.liInfo) && ValidTarget(lsra.target)
    requires i < |lsra.liInfo| && FirstFit(lsra.target, shapes, Regs(lsra.liInfo), i)
    requires lsra.liInfo[i].reg == REG_UNKNOWN
    ensures Crowded(lsra.target, ranges, RegsIn(valueLi), lsra.liInfo[i].value)
  {
    hide AllDone, ShareSlot;
    var li, asg, target := lsra.liInfo, RegsIn(valueLi), lsra.target;
    var v := li[i].value;
    assert li[i] in li && shapes[i] == Shape(v.cls, ranges[v]);
    forall r | r in Allocatable(target, v.cls)
      ensures exists w :: w in asg && w in ranges && w != v && w.cls == v.cls && asg[w] == r
                          && ShareSlot(ranges[w], ranges[v])
    {
      KnownReg(target, v.cls, r);
      assert !Open(target, shapes, Regs(li), i, r);
      var j: nat :| Rival(shapes, i, j) && Regs(li)[j] == r;
      var w := li[j].value;
      assert li[j] in li && shapes[j] == Shape(w.cls, ranges[w]) && asg[w] == r;
    }
  }

  /** Why a value has no register: each one of its class is held by a value that meets it, in strict form. */
  ghost predicate Stuck(g: Cfg, target: Target, asg: Assignment, v: Value) {
    && v in asg && asg[v] == REG_UNKNOWN
    && forall r :: r in Allocatable(target, v.cls) ==>
         exists w :: w in asg && w != v && w.cls == v.cls && asg[w] == r && (Strict(g) ==> Meet(g, w, v))
  }

  lemma CrowdedStuck(g: Cfg, target: Target, ranges: map<Value, seq<Range>>, asg: Assignment, v: Value)
    requires AllDone(g, ranges) && Crowded(target, ranges, asg, v)
    ensures Stuck(g, target, asg, v)
  {
    hide Strict, Meet, ShareSlot, Allocatable, Done;
    assert ranges[v] != [] && Done(g, ranges[v], v, 0);
    forall r | r in Allocatable(target, v.cls)
      ensures exists w :: w in asg && w != v && w.cls == v.cls && asg[w] == r && (Strict(g) ==> Meet(g, w, v))
    {
      var w :| w in asg && w in ranges && w != v && w.cls == v.cls && asg[w] == r && ShareSlot(ranges[w], ranges[v]);
      if Strict(g) {
        assert Done(g, ranges[w], w, 0);
        SomePoint(g, ranges[v], v);
        SharedMeet(g, ranges[w], w, ranges[v], v);
      }
    }
  }

  lemma StuckIn(g: Cfg, target: Target, asg: Assignment, v: Value)
    requires Stuck(g, target, asg, v)
    ensures v in asg
  {
  }

  /** A value without a register has as many rivals as its class has registers. */
  lemma StuckRivals(g: Cfg, target: Target, asg: Assignment, v: Value)
    requires Stuck(g, target, asg, v)
    ensures Strict(g) ==> |Allocatable(target, v.cls)| <= |Rivals(g, asg.Keys, v)|
    ensures |Allocatable(target, v.cls)| < |OfClass(asg.Keys, v.cls)|
  {
    hide Strict, Meet, Allocatable;
    if Strict(g) {
      FewerRegs(Rivals(g, asg.Keys, v), asg, Allocatable(target, v.cls));
    }
    assert v in OfClass(asg.Keys, v.cls);
    FewerRegs(OfClass(asg.Keys, v.cls) - {v}, asg, Allocatable(target, v.cls));
  }

  /** The scan over the intervals of a builder that has run. */
  method Scan(g: Cfg, valueLi: map<Value, LiveInterval>, li: seq<LiveInterval>, target: Target,
              ghost ranges: map<Value, seq<Range>>)
    returns (ok: bool, asg: Assignment)
    requires ValidTarget(target) && Built(g, valueLi, li, ranges) && ByStart(li) && NoDup(li)
    requires AllProper(li) && forall x :: x in li ==> x.reg == REG_UNKNOWN
    modifies li`reg
    ensures ok ==> Allocated(g, ranges, asg) && forall v :: v in asg ==> asg[v] in Allocatable(target, v.cls)
    ensures asg.Keys == ranges.Keys && (ok ==> HeldFits(ranges, target))
    ensures HeldFits(ranges, target) && (forall v :: v in ranges ==> |ranges[v]| == 1) ==> ok
    ensures !ok ==> exists v :: Crowded(target, ranges, asg, v)
  {
    hide Built, Allocated, ByStart, NoDup, ValidTarget, Conflict, Allocatable, HoleFree, LowPressure, HeldFits,
         Shapes, AllProper, Crowded, FirstFit, Regs;
    ghost var shapes := Shapes(li);
    ShapesFit(g, valueLi, li, ranges, target);
    var lsra := new Lsra(target, li);
    var verified := lsra.LinearScan(shapes);
    ok := lsra.blocked == {};
    asg := RegsIn(valueLi);
    SameKeys(g, valueLi, li, ranges);
    if ok {
      ScanAllocates(g, valueLi, lsra, ranges);
    } else {
      ghost var x :| x in lsra.blocked;
      ghost var i: nat :| i < |li| && li[i] == x;
      assert lsra.Settled(x, lsra.blocked);
      BlockedCrowded(g, valueLi, lsra, shapes, ranges, i);
    }
  }

  /** What completeness of the ranges says about pressure, holes and values that need a register. */
  lemma RangesSuffice(g: Cfg, ranges: map<Value, seq<Range>>, target: Target)
    requires AllDone(g, ranges)
    ensures HeldFits(ranges, target) ==> PressureFits(g, ranges.Keys, target)
    ensures Strict(g) && PressureFits(g, ranges.Keys, target) ==> HeldFits(ranges, target)
    ensures Strict(g) && (forall v :: v in ranges ==> Unbroken(g, v)) ==> forall v :: v in ranges ==> |ranges[v]| == 1
    ensures forall v, b: nat, k: nat :: IsPoint(g, b, k) && Occupied(g, v, b, k) ==> v in ranges
  {
    hide Occupied, Strict, HeldFits, PressureFits, Unbroken;
    if HeldFits(ranges, target) {
      HeldFitsPoints(g, ranges, target);
    }
    if Strict(g) && PressureFits(g, ranges.Keys, target) {
      PointsFitHeld(g, ranges, target);
    }
    forall v | v in ranges && Strict(g) && Unbroken(g, v) ensures |ranges[v]| == 1 {
      SomePoint(g, ranges[v], v);
      UnbrokenHoleFree(g, ranges[v], v);
    }
    forall v, b: nat, k: nat | IsPoint(g, b, k) && Occupied(g, v, b, k) ensures v in ranges {
      OccupiedHeld(g, if v in ranges then ranges[v] else [], v, b, k);
    }
  }

  lemma SomePoint(g: Cfg, rs: seq<Range>, v: Value)
    requires Done(g, rs, v, 0) && rs != []
    ensures 0 < |g|
  {
    hide Occupied, Strict;
    SeparatedOrdered(rs);
    FirstHeldAt(rs);
    HeldInside(rs, BlockStart(g, 0), BlockStart(g, |g|), rs[0].start);
  }

  /** The rewriter over the intervals of a builder that has run. */
  method EmitMoves(g: Cfg, asg: Assignment, li: seq<LiveInterval>) returns (code: Option<seq<seq<Move>>>)
    requires Linked(g) && forall v :: v in asg <==> exists x :: x in li && x.value == v
    ensures code.Some? <==> Rewritable(g, asg)
    ensures code.Some? ==> Emitted(g, asg, code.value)
  {
    hide FirstResult, OperandsHeld, Linked;
    var values := seq(|li|, i requires 0 <= i < |li| => li[i].value);
    forall v ensures v in values <==> v in asg {
      if x :| x in li && x.value == v {
        var i :| 0 <= i < |li| && li[i] == x;
        assert values[i] == v;
      }
    }
    var rewriter := new PregRewriter(g, asg, values);
    var ok := rewriter.Run();
    code := if ok then Some(rewriter.moves) else None;
  }

  lemma ListedValues(g: Cfg, valueLi: map<Value, LiveInterval>, li: seq<LiveInterval>, ranges: map<Value, seq<Range>>)
    requires Built(g, valueLi, li, ranges)
    ensures forall v :: v in ranges <==> exists x :: x in li && x.value == v
  {
    forall v ensures v in ranges <==> exists x :: x in li && x.value == v {
      if v in ranges {
        assert valueLi[v] in li;
      }
    }
  }

  /** All values are kept exactly when the moves are right, for which it is enough that they are safe. */
  lemma EmittedMeaning(g: Cfg, asg: Assignment, moves: seq<seq<Move>>)
    requires WellFormed(g) && Strict(g) && Separates(g, asg) && OnlyNeeded(g, asg) && Emitted(g, asg, moves)
    ensures Simulates(g, asg, Code(moves)) <==> AllRight(g, asg, moves)
    ensures AllSafe(g, asg, moves) ==> Simulates(g, asg, Code(moves)) && Refines(g, asg, Code(moves))
    ensures ProperPhis(g) && Simulates(g, asg, Code(moves)) ==> AllSafe(g, asg, moves)
    ensures ProperPhis(g) && PhisMovable(g) && NoTwins(g) && (forall v :: v in asg ==> asg[v] != REG_UNKNOWN) ==>
              (Refines(g, asg, Code(moves)) <==> NoneInTheWay(g, asg, moves))
  {
    assert |moves| == |g|;
    hide WellFormed, Strict, Separates, OnlyNeeded, Emitted, Simulates, Refines, AllRight, AllSafe, ProperPhis,
         PhisMovable, NoTwins, NoneInTheWay;
    if ProperPhis(g) && PhisMovable(g) && NoTwins(g) && forall v :: v in asg ==> asg[v] != REG_UNKNOWN {
      RefinesIff(g, asg, moves);
    }
    EmittedIff(g, asg, moves);
    AllSafeIff(g, asg, moves);
    if Simulates(g, asg, Code(moves)) {
      SimulationRefines(g, asg, Code(moves));
    }
  }

  lemma KnownReg(target: Target, rc: nat, r: nat)
    requires ValidTarget(target) && r in Allocatable(target, rc)
    ensures r != REG_UNKNOWN
  {
    assert r < |target(rc)| <= REG_UNKNOWN;
  }

  /**
    Gives every value a register of its class, unless an interval would have to
    be spilled, and replaces the phis by moves, unless an assertion fails.
    Values occupied at the same point get different registers.  Success of the
    scan means that no point has more occupied values of a class than the class
    has registers; in strict form, when no value is occupied with a hole in
    between, that is also enough for success; with holes it is enough that every
    value has fewer rivals than its class has registers.  In strict form running on the
    registers keeps all values exactly when the moves are right, and from the
    entry exactly when they are not in the way.
   */
  method AllocateRegisters(g: Cfg, target: Target) returns (ok: bool, asg: Assignment, code: Option<seq<seq<Move>>>)
    requires WellFormed(g) && ValidTarget(target) && BlockStart(g, |g|) <= SLOT_LIMIT
    ensures ok ==> Separates(g, asg) && forall v :: v in asg ==> asg[v] in Allocatable(target, v.cls)
    ensures ok && Strict(g) ==> OnlyNeeded(g, asg) && Refines(g, asg, Parallel(g, asg))
    ensures ok ==> PressureFits(g, asg.Keys, target)
    ensures Strict(g) && (forall v :: v in asg ==> Unbroken(g, v)) && PressureFits(g, asg.Keys, target) ==> ok
    ensures !ok ==> exists v :: Stuck(g, target, asg, v)
    ensures Strict(g) && (forall v :: v in asg ==> |Rivals(g, asg.Keys, v)| < |Allocatable(target, v.cls)|) ==> ok
    ensures (forall v :: v in asg ==> |OfClass(asg.Keys, v.cls)| <= |Allocatable(target, v.cls)|) ==> ok
    ensures forall v, b: nat, k: nat :: IsPoint(g, b, k) && Occupied(g, v, b, k) ==> v in asg
    ensures code.Some? <==> ok && Rewritable(g, asg)
    ensures code.Some? ==> Emitted(g, asg, code.value)
    ensures code.Some? && Strict(g) ==> (Simulates(g, asg, Code(code.value)) <==> AllRight(g, asg, code.value))
    ensures code.Some? && Strict(g) && AllSafe(g, asg, code.value) ==> Refines(g, asg, Code(code.value))
    ensures code.Some? && Strict(g) && ProperPhis(g) ==>
              (Simulates(g, asg, Code(code.value)) <==> AllSafe(g, asg, code.value))
    ensures code.Some? && Strict(g) && ProperPhis(g) && PhisMovable(g) && NoTwins(g) ==>
              (Refines(g, asg, Code(code.value)) <==> NoneInTheWay(g, asg, code.value))
  {
    hide Strict, Separates, Refines, Allocated, OnlyNeeded, BlockStart, NoDup, ByStart, Built, ValidTarget, AllProper,
         Done, PressureFits, HeldFits, Unbroken, AllDone, Occupied, Simulates, AllRight, AllSafe, Emitted, Rewritable,
         ProperPhis, Linked, UniqueIds, Forward, PhisMovable, NoTwins, NoneInTheWay, Allocatable, Crowded, Stuck;
    var builder := new LiveIntervalBuilder(g);
    var li := builder.Run();
    BuiltByRun(builder, li);
    ghost var ranges := RangesIn(builder.valueLi);
    ListedValues(g, builder.valueLi, li, ranges);
    code := None;
    ok, asg := Scan(g, builder.valueLi, li, target, ranges);
    RangesSuffice(g, ranges, target);
    if ok {
      AllocatedSeparates(g, ranges, asg);
      forall v | v in asg ensures asg[v] != REG_UNKNOWN {
        KnownReg(target, v.cls, asg[v]);
      }
      code := EmitMoves(g, asg, li);
      if Strict(g) {
        AllocatedNeeded(g, ranges, asg);
        ParallelRefines(g, asg);
        if code.Some? {
          EmittedMeaning(g, asg, code.value);
        }
      }
    } else {
      ghost var v :| Crowded(target, ranges, asg, v);
      CrowdedStuck(g, target, ranges, asg, v);
      StuckRivals(g, target, asg, v);
      StuckIn(g, target, asg, v);
    }
  }
}
