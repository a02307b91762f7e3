/** What the ranges of one value must be while the builder walks the layout backwards. */
module IntervalSweep {
  import opened LiveIntervals
  import opened Liveness

  /** At the points behind (`b`, `k`) the value is held where it is occupied; in strict form, only there. */
  ghost predicate HeldBehind(g: Cfg, rs: seq<Range>, v: Value, b: nat, k: nat) {
    forall c: nat, j: nat, slot: nat :: IsPoint(g, c, j) && (b < c || (b == c && k < j)) && SlotAt(g, c, j, slot) ==>
      && (Occupied(g, v, c, j) ==> Holds(rs, slot))
      && (Strict(g) && Holds(rs, slot) ==> Occupied(g, v, c, j))
  }

  /** From the start of the block up to the point, the value is held throughout or not at all. */
  ghost predicate HeldBefore(g: Cfg, rs: seq<Range>, b: nat, k: nat, live: bool)
    requires b < |g|
  {
    forall slot: nat :: BlockStart(g, b) <= slot < Slot(g, b, k) + DIST ==> (Holds(rs, slot) <==> live)
  }

  ghost predicate Within(rs: seq<Range>, lo: nat, hi: nat) {
    forall r :: r in rs ==> lo <= r.start && r.end <= hi
  }

  /** The sweep has come down to point (`b`, `k`). */
  ghost predicate Swept(g: Cfg, rs: seq<Range>, v: Value, b: nat, k: nat, live: bool)
    requires b < |g|
  {
    && Separated(rs) && Within(rs, BlockStart(g, b), BlockStart(g, |g|))
    && HeldBehind(g, rs, v, b, k) && HeldBefore(g, rs, b, k, live)
  }

  /** The blocks from `b` on are done. */
  ghost predicate Done(g: Cfg, rs: seq<Range>, v: Value, b: nat)
    requires b <= |g|
  {
    && Separated(rs) && Within(rs, BlockStart(g, b), BlockStart(g, |g|))
    && forall c: nat, j: nat, slot: nat :: IsPoint(g, c, j) && b <= c && SlotAt(g, c, j, slot) ==>
         && (Occupied(g, v, c, j) ==> Holds(rs, slot))
         && (Strict(g) && Holds(rs, slot) ==> Occupied(g, v, c, j))
  }

  lemma OutOfReach(rs: seq<Range>, lo: nat, hi: nat, slot: nat)
    requires Within(rs, lo, hi) && (slot < lo || hi <= slot)
    ensures !Holds(rs, slot)
  {
  }

  /** What `Added` does at every slot. */
  lemma AddedEverywhere(rs: seq<Range>, lr: Range, lo: nat, hi: nat)
    requires Separated(rs) && lr.start < lr.end && Within(rs, lo, hi)
    requires lr.start <= lo && lr.end <= hi
    ensures Separated(Added(rs, lr)) && Within(Added(rs, lr), lr.start, hi)
    ensures forall slot: nat :: Holds(Added(rs, lr), slot) <==> Holds(rs, slot) || lr.Contain(slot)
    ensures rs == [] || lr.start < rs[|rs| - 1].end
  {
    SeparatedOrdered(rs);
    forall r | r in rs ensures r.end != lr.start {
      var i :| 0 <= i < |rs| && rs[i] == r;
    }
    AddedSeparated(rs, lr);
    forall slot: nat ensures Holds(Added(rs, lr), slot) <==> Holds(rs, slot) || lr.Contain(slot) {
      AddedIs(rs, lr, slot);
    }
    forall r | r in Added(rs, lr) ensures lr.start <= r.start && r.end <= hi {
      AddedWithin(rs, lr, r, hi);
    }
    if rs != [] {
      assert rs[|rs| - 1] in rs;
    }
  }

  lemma AddedWithin(rs: seq<Range>, lr: Range, r: Range, hi: nat)
    requires Separated(rs) && lr.start < lr.end && Within(rs, lr.start, hi) && lr.end <= hi
    requires forall slot: nat :: Holds(Added(rs, lr), slot) <==> Holds(rs, slot) || lr.Contain(slot)
    requires Separated(Added(rs, lr)) && r in Added(rs, lr)
    ensures lr.start <= r.start && r.end <= hi
  {
    assert r.start < r.end by {
      var i :| 0 <= i < |Added(rs, lr)| && Added(rs, lr)[i] == r;
    }
    assert r.Contain(r.start) && r.Contain(r.end - 1);
    assert Holds(Added(rs, lr), r.start) && Holds(Added(rs, lr), r.end - 1);
  }

  /** A value live at the end of a block is first held throughout the block. */
  lemma EnterBlock(g: Cfg, rs: seq<Range>, v: Value, b: nat, live: bool)
    requires b < |g| && Done(g, rs, v, b + 1)
    ensures live ==> Swept(g, Added(rs, Range(BlockStart(g, b), BlockStart(g, b + 1))), v, b, |g[b].ops|, true)
    ensures !live ==> Swept(g, rs, v, b, |g[b].ops|, false)
  {
    hide Separated, Holds, Occupied, Strict;
    var lr := Range(BlockStart(g, b), BlockStart(g, b + 1));
    var hi := BlockStart(g, |g|);
    if b + 1 < |g| {
      StartsGrow(g, b + 1, |g|);
    }
    forall slot: nat | slot < BlockStart(g, b + 1) ensures !Holds(rs, slot) {
      OutOfReach(rs, BlockStart(g, b + 1), hi, slot);
    }
    if live {
      AddedEverywhere(rs, lr, BlockStart(g, b + 1), hi);
      forall c: nat, j: nat, slot: nat | IsPoint(g, c, j) && b < c && SlotAt(g, c, j, slot)
        ensures !lr.Contain(slot)
      {
        SlotsInOrder(g, b, |g[b].ops|, c, j);
      }
    }
  }

  lemma LeaveBlock(g: Cfg, rs: seq<Range>, v: Value, b: nat)
    requires b < |g| && Swept(g, rs, v, b, 0, Live(g, v, b, 0))
    ensures Done(g, rs, v, b)
  {
    hide Separated, Holds, Strict, Live;
    forall c: nat, j: nat, slot: nat | IsPoint(g, c, j) && b <= c && SlotAt(g, c, j, slot)
      ensures (Occupied(g, v, c, j) ==> Holds(rs, slot)) && (Strict(g) && Holds(rs, slot) ==> Occupied(g, v, c, j))
    {
      if c == b && j == 0 {
        assert Holds(rs, slot) <==> Live(g, v, b, 0);
      }
    }
  }

  /** An instruction that does not define the value. */
  lemma NoDefStep(g: Cfg, rs: seq<Range>, v: Value, b: nat, k: nat, live: bool)
    requires IsOp(g, b, k) && Swept(g, rs, v, b, k + 1, live)
    requires live == Live(g, v, b, k + 1) && v !in Defs(g[b].ops[k])
    ensures Swept(g, rs, v, b, k, live)
  {
    hide Separated, Holds, Strict, Live, Defs;
    forall c: nat, j: nat, slot: nat | IsPoint(g, c, j) && (b < c || (b == c && k < j)) && SlotAt(g, c, j, slot)
      ensures (Occupied(g, v, c, j) ==> Holds(rs, slot)) && (Strict(g) && Holds(rs, slot) ==> Occupied(g, v, c, j))
    {
      if c == b && j == k + 1 {
        assert Holds(rs, slot) <==> live;
      }
    }
  }

  /** A use holds the value from the start of the block up to the instruction. */
  lemma UseStep(g: Cfg, rs: seq<Range>, v: Value, b: nat, k: nat, live: bool)
    requires IsOp(g, b, k) && Swept(g, rs, v, b, k, live)
    ensures var lr := Range(BlockStart(g, b), Slot(g, b, k + 1));
            && Swept(g, Added(rs, lr), v, b, k, true)
            && lr.start < lr.end && Ordered(rs) && (rs == [] || lr.start < rs[|rs| - 1].end)
  {
    hide Separated, Holds, Occupied, Strict;
    SeparatedOrdered(rs);
    var lr := Range(BlockStart(g, b), Slot(g, b, k + 1));
    StartsGrow(g, b, |g|);
    AddedEverywhere(rs, lr, BlockStart(g, b), BlockStart(g, |g|));
    forall c: nat, j: nat, slot: nat | IsPoint(g, c, j) && (b < c || (b == c && k < j)) && SlotAt(g, c, j, slot)
      ensures !lr.Contain(slot)
    {
      SlotsInOrder(g, b, k, c, j);
    }
  }

  /** Every range ends behind a definition the sweep has come to. */
  lemma EndsBehind(g: Cfg, rs: seq<Range>, v: Value, b: nat, k: nat, live: bool)
    requires IsOp(g, b, k) && Swept(g, rs, v, b, k + 1, live)
    ensures forall r :: r in rs ==> Slot(g, b, k + 1) < r.end
  {
    hide HeldBehind;
    forall r | r in rs ensures Slot(g, b, k + 1) < r.end {
      EndFree(rs, r);
      assert r.Contain(r.start) && Holds(rs, r.start);
    }
  }

  lemma EndFree(rs: seq<Range>, r: Range)
    requires Separated(rs) && r in rs
    ensures r.start < r.end && !Holds(rs, r.end)
  {
    var i :| 0 <= i < |rs| && rs[i] == r;
    forall x | x in rs ensures !x.Contain(r.end) {
      var j :| 0 <= j < |rs| && rs[j] == x;
      assert i < j ==> rs[i].end < rs[j].start;
      assert j < i ==> rs[j].end < rs[i].start;
    }
  }

  /** In strict form a value that is dead after its definition is held nowhere. */
  lemma DeadNowhere(g: Cfg, rs: seq<Range>, v: Value, b: nat, k: nat)
    requires Linked(g) && UniqueIds(g) && Strict(g)
    requires IsOp(g, b, k) && Swept(g, rs, v, b, k + 1, false)
    requires v in Defs(g[b].ops[k]) && !Live(g, v, b, k + 1)
    ensures rs == []
  {
    hide Linked, UniqueIds, Strict, Live, UsePath;
    if rs != [] {
      var r := rs[0];
      assert r.Contain(r.start) && Holds(rs, r.start);
      assert DefinedAt(g, v, b, k + 1);
      NotChi(g, v, b, k);
      var c, j := SlotPoint(g, b, r.start);
      if b < c || k + 1 < j {
        assert Occupied(g, v, c, j);
        if Live(g, v, c, j) {
          LiveMeetsDef(g, v, c, j);
          var b', k' :| DefinedAt(g, v, b', k') && Live(g, v, b', k');
          OneDef(g, v, b', k', b, k + 1);
        } else {
          assert DefinedAt(g, v, c, j);
          OneDef(g, v, c, j, b, k + 1);
        }
        assert false;
      } else {
        assert false;
      }
    }
  }

  lemma NotChi(g: Cfg, v: Value, b: nat, k: nat)
    requires UniqueIds(g) && IsOp(g, b, k) && v in Defs(g[b].ops[k])
    ensures !IsChi(g, v.def)
  {
    hide IsChi;
    assert g[b].ops[k].id == v.def;
  }

  /** The point a slot of the function belongs to. */
  lemma {:induction false} SlotPoint(g: Cfg, b: nat, slot: nat) returns (c: nat, j: nat)
    requires b < |g| && BlockStart(g, b) <= slot < BlockStart(g, |g|)
    ensures IsPoint(g, c, j) && b <= c && SlotAt(g, c, j, slot)
    decreases |g| - b
  {
    if slot < BlockStart(g, b + 1) {
      c, j := b, (slot - BlockStart(g, b)) / DIST;
    } else {
      c, j := SlotPoint(g, b + 1, slot);
    }
  }

  /** A definition: the value is held from here on, and not before. */
  lemma DefStep(g: Cfg, rs: seq<Range>, v: Value, b: nat, k: nat, live: bool)
    requires Linked(g) && UniqueIds(g) && IsOp(g, b, k) && Swept(g, rs, v, b, k + 1, live)
    requires live == Live(g, v, b, k + 1) && v in Defs(g[b].ops[k])
    ensures Swept(g, Started(rs, Slot(g, b, k + 1)), v, b, k, false)
  {
    hide Linked, UniqueIds, Strict, Live;
    var def := Slot(g, b, k + 1);
    var rs' := Started(rs, def);
    EndsBehind(g, rs, v, b, k, live);
    SeparatedOrdered(rs);
    StartedIs(rs, def, 0);
    if Strict(g) && !live {
      DeadNowhere(g, rs, v, b, k);
    }
    StartsGrow(g, b, |g|);
    StartedWithin(rs, def, BlockStart(g, b), BlockStart(g, |g|));
    forall c: nat, j: nat, slot: nat | IsPoint(g, c, j) && (b < c || (b == c && k < j)) && SlotAt(g, c, j, slot)
      ensures (Occupied(g, v, c, j) ==> Holds(rs', slot)) && (Strict(g) && Holds(rs', slot) ==> Occupied(g, v, c, j))
    {
      DefStepAt(g, rs, v, b, k, live, c, j, slot);
    }
    forall slot: nat | BlockStart(g, b) <= slot < Slot(g, b, k) + DIST ensures !Holds(rs', slot) {
      StartedIs(rs, def, slot);
    }
  }

  lemma DefStepAt(g: Cfg, rs: seq<Range>, v: Value, b: nat, k: nat, live: bool, c: nat, j: nat, slot: nat)
    requires IsOp(g, b, k) && Swept(g, rs, v, b, k + 1, live) && live == Live(g, v, b, k + 1)
    requires v in Defs(g[b].ops[k]) && (forall r :: r in rs ==> Slot(g, b, k + 1) < r.end)
    requires Strict(g) && !live ==> rs == []
    requires IsPoint(g, c, j) && (b < c || (b == c && k < j)) && SlotAt(g, c, j, slot)
    ensures var rs' := Started(rs, Slot(g, b, k + 1));
            && (Occupied(g, v, c, j) ==> Holds(rs', slot))
            && (Strict(g) && Holds(rs', slot) ==> Occupied(g, v, c, j))
  {
    hide Strict, Live, Holds, Separated, Started, Ordered;
    SeparatedOrdered(rs);
    StartedIs(rs, Slot(g, b, k + 1), slot);
    if live {
      FirstHeld(rs, Slot(g, b, k + 1));
    }
    if c == b && j == k + 1 {
      assert Occupied(g, v, c, j);
      if !live && rs != [] {
        NotHeldYet(rs, Slot(g, b, k + 1), DIST);
      }
    } else {
      SlotsInOrder(g, b, k + 1, c, j);
    }
  }

  lemma FirstHeld(rs: seq<Range>, slot: nat)
    requires Ordered(rs) && Holds(rs, slot)
    ensures rs != [] && rs[0].start <= slot
  {
    var r :| r in rs && r.Contain(slot);
    var i :| 0 <= i < |rs| && rs[i] == r;
    assert i > 0 ==> rs[0].end <= rs[i].start;
  }

  lemma NotHeldYet(rs: seq<Range>, slot: nat, n: nat)
    requires Ordered(rs) && rs != [] && (forall r :: r in rs ==> slot < r.end)
    requires forall p: nat :: slot <= p < slot + n ==> !Holds(rs, p)
    ensures slot + n <= rs[0].start || n == 0
  {
    assert rs[0] in rs;
    if n > 0 && rs[0].start < slot + n {
      var p := if rs[0].start < slot then slot else rs[0].start;
      assert rs[0].Contain(p) && Holds(rs, p);
    }
  }

  lemma StartedWithin(rs: seq<Range>, def: nat, lo: nat, hi: nat)
    requires Ordered(rs) && Within(rs, lo, hi) && lo <= def && def + DIST <= hi
    ensures Within(Started(rs, def), lo, hi)
  {
    var k := AdvanceTo(rs, def);
    if k < |rs| {
      assert rs[k] in rs;
    }
  }

  /** A result that names the value a second time changes nothing. */
  lemma DefAgain(g: Cfg, rs: seq<Range>, v: Value, b: nat, k: nat)
    requires IsOp(g, b, k) && Swept(g, rs, v, b, k, false) && v in Defs(g[b].ops[k])
    ensures Started(rs, Slot(g, b, k + 1)) == rs
    ensures forall r :: r in rs ==> Slot(g, b, k + 1) < r.end
  {
    hide Strict, Live;
    var def := Slot(g, b, k + 1);
    SeparatedOrdered(rs);
    assert Occupied(g, v, b, k + 1) && SlotAt(g, b, k + 1, def);
    FirstHeld(rs, def);
    assert rs[0].Contain(rs[0].start) && Holds(rs, rs[0].start);
    assert rs[0] in rs;
    assert rs[0].start == def;
    forall r | r in rs ensures def < r.end {
      var i :| 0 <= i < |rs| && rs[i] == r;
      assert i > 0 ==> rs[0].end <= rs[i].start;
    }
    assert AdvanceTo(rs, def) == 0;
  }
}
