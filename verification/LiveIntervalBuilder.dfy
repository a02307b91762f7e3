/** The builder walks the layout backwards and leaves one interval for each value. */
module LiveIntervalBuilders {
  import opened Basics
  import opened LiveIntervals
  import opened Liveness
  import opened IntervalSweep

  /** `v` reaches the end of block `c` on an edge to one of the blocks from `b` on, other than by a phi. */
  ghost predicate LiveInto(g: Cfg, v: Value, c: nat, b: nat)
    requires c < |g|
  {
    exists s :: s in g[c].succs && b <= s < |g| && v !in PhiDefs(g[s]) && Live(g, v, s, 0)
  }

  // ----- numbering ---------------------------------------------------------------

  /** Instruction `k` has the slot behind it; the phis have the slot of the block entry. */
  ghost predicate BlockNumbered(g: Cfg, m: map<nat, nat>, b: nat, ops: nat, phis: nat)
    requires b < |g|
  {
    && (forall k: nat :: k < |g[b].ops| && k < ops ==>
          g[b].ops[k].id in m && m[g[b].ops[k].id] == Slot(g, b, k + 1))
    && (forall k: nat :: k < |g[b].phis| && k < phis ==>
          g[b].phis[k].id in m && m[g[b].phis[k].id] == Slot(g, b, 0))
  }

  ghost predicate AllNumbered(g: Cfg, m: map<nat, nat>, n: nat)
    requires n <= |g|
  {
    forall b: nat :: b < n ==> BlockNumbered(g, m, b, |g[b].ops|, |g[b].phis|)
  }

  /** A chi has the slot of the entry of a block that lists it, one of the first `n`. */
  ghost predicate ChiSlot(g: Cfg, m: map<nat, nat>, id: nat, n: nat)
    requires n <= |g|
  {
    id in m && exists c: nat, j: nat :: c < n && j < |g[c].chis| && g[c].chis[j].id == id && m[id] == Slot(g, c, 0)
  }

  ghost predicate ChisNumbered(g: Cfg, m: map<nat, nat>, n: nat)
    requires n <= |g|
  {
    forall c: nat, j: nat :: c < n && j < |g[c].chis| ==> ChiSlot(g, m, g[c].chis[j].id, n)
  }

  lemma KeepsChis(g: Cfg, m: map<nat, nat>, id: nat, slot: nat, n: nat)
    requires n <= |g| && ChisNumbered(g, m, n) && !IsChi(g, id)
    ensures ChisNumbered(g, m[id := slot], n)
  {
    forall c: nat, j: nat | c < n && j < |g[c].chis| ensures ChiSlot(g, m[id := slot], g[c].chis[j].id, n) {
      assert ChiSlot(g, m, g[c].chis[j].id, n) && g[c].chis[j].id != id;
    }
  }

  /** The first `k` chis of block `n` besides. */
  ghost predicate ChisUpTo(g: Cfg, m: map<nat, nat>, n: nat, k: nat)
    requires n < |g|
  {
    && (forall c: nat, j: nat :: c < n && j < |g[c].chis| ==> ChiSlot(g, m, g[c].chis[j].id, n + 1))
    && (forall j: nat :: j < k && j < |g[n].chis| ==> ChiSlot(g, m, g[n].chis[j].id, n + 1))
  }

  lemma NextChi(g: Cfg, m: map<nat, nat>, n: nat, k: nat)
    requires n < |g| && k < |g[n].chis| && ChisUpTo(g, m, n, k)
    ensures ChisUpTo(g, m[g[n].chis[k].id := Slot(g, n, 0)], n, k + 1)
  {
    var id := g[n].chis[k].id;
    var m' := m[id := Slot(g, n, 0)];
    assert ChiSlot(g, m', id, n + 1);
    forall c: nat, j: nat | c < n && j < |g[c].chis| ensures ChiSlot(g, m', g[c].chis[j].id, n + 1) {
      ChiSlotKept(g, m, g[c].chis[j].id, id, n);
    }
    forall j: nat | j < k ensures ChiSlot(g, m', g[n].chis[j].id, n + 1) {
      ChiSlotKept(g, m, g[n].chis[j].id, id, n);
    }
  }

  lemma ChiSlotKept(g: Cfg, m: map<nat, nat>, x: nat, id: nat, n: nat)
    requires n < |g| && ChiSlot(g, m, x, n + 1) && ChiSlot(g, m[id := Slot(g, n, 0)], id, n + 1)
    ensures ChiSlot(g, m[id := Slot(g, n, 0)], x, n + 1)
  {
  }

  lemma FirstChi(g: Cfg, m: map<nat, nat>, n: nat)
    requires n < |g| && ChisNumbered(g, m, n)
    ensures ChisUpTo(g, m, n, 0)
  {
    forall c: nat, j: nat | c < n && j < |g[c].chis| ensures ChiSlot(g, m, g[c].chis[j].id, n + 1) {
      assert ChiSlot(g, m, g[c].chis[j].id, n);
    }
  }

  lemma LastChi(g: Cfg, m: map<nat, nat>, n: nat)
    requires n < |g| && ChisUpTo(g, m, n, |g[n].chis|)
    ensures ChisNumbered(g, m, n + 1)
  {
  }

  /** The identifier of no instruction of block `b`, up to the given ones. */
  ghost predicate OtherId(g: Cfg, id: nat, b: nat, ops: nat, phis: nat)
    requires b < |g|
  {
    && (forall k: nat :: k < |g[b].ops| && k < ops ==> g[b].ops[k].id != id)
    && (forall k: nat :: k < |g[b].phis| && k < phis ==> g[b].phis[k].id != id)
  }

  lemma KeepsNumbers(g: Cfg, m: map<nat, nat>, id: nat, slot: nat, n: nat)
    requires n <= |g| && AllNumbered(g, m, n)
    requires forall c: nat :: c < n ==> OtherId(g, id, c, |g[c].ops|, |g[c].phis|)
    ensures AllNumbered(g, m[id := slot], n)
  {
    forall c: nat | c < n ensures BlockNumbered(g, m[id := slot], c, |g[c].ops|, |g[c].phis|) {
      assert BlockNumbered(g, m, c, |g[c].ops|, |g[c].phis|);
      assert OtherId(g, id, c, |g[c].ops|, |g[c].phis|);
    }
  }

  lemma OneMoreNumbered(g: Cfg, m: map<nat, nat>, b: nat)
    requires b < |g| && AllNumbered(g, m, b) && BlockNumbered(g, m, b, |g[b].ops|, |g[b].phis|)
    ensures AllNumbered(g, m, b + 1)
  {
  }

  lemma ChiIsOther(g: Cfg, b: nat, k: nat)
    requires UniqueIds(g) && b < |g| && k < |g[b].chis|
    ensures forall c: nat :: c < |g| ==> OtherId(g, g[b].chis[k].id, c, |g[c].ops|, |g[c].phis|)
  {
    var id := g[b].chis[k].id;
    assert IsChi(g, id);
    forall c: nat | c < |g| ensures OtherId(g, id, c, |g[c].ops|, |g[c].phis|) {
      forall j: nat | j < |g[c].ops| ensures g[c].ops[j].id != id { assert IsOp(g, c, j); }
      forall j: nat | j < |g[c].phis| ensures g[c].phis[j].id != id { assert IsPhi(g, c, j); }
    }
  }

  lemma OpNoChi(g: Cfg, b: nat, k: nat)
    requires UniqueIds(g) && IsOp(g, b, k)
    ensures !IsChi(g, g[b].ops[k].id)
  {
  }

  lemma PhiNoChi(g: Cfg, b: nat, k: nat)
    requires UniqueIds(g) && IsPhi(g, b, k)
    ensures !IsChi(g, g[b].phis[k].id)
  {
  }

  lemma OpIsOther(g: Cfg, b: nat, k: nat)
    requires UniqueIds(g) && IsOp(g, b, k)
    ensures forall c: nat :: c < |g| && c != b ==> OtherId(g, g[b].ops[k].id, c, |g[c].ops|, |g[c].phis|)
    ensures OtherId(g, g[b].ops[k].id, b, k, |g[b].phis|)
  {
    hide IsChi;
    var id := g[b].ops[k].id;
    forall c: nat, j: nat | IsOp(g, c, j) && (c != b || j != k) ensures g[c].ops[j].id != id {}
    forall c: nat, j: nat | IsPhi(g, c, j) ensures g[c].phis[j].id != id {}
    forall c: nat | c < |g| && c != b ensures OtherId(g, id, c, |g[c].ops|, |g[c].phis|) {
      forall j: nat | j < |g[c].ops| ensures g[c].ops[j].id != id { assert IsOp(g, c, j); }
      forall j: nat | j < |g[c].phis| ensures g[c].phis[j].id != id { assert IsPhi(g, c, j); }
    }
    forall j: nat | j < k ensures g[b].ops[j].id != id { assert IsOp(g, b, j); }
    forall j: nat | j < |g[b].phis| ensures g[b].phis[j].id != id { assert IsPhi(g, b, j); }
  }

  lemma PhiIsOther(g: Cfg, b: nat, k: nat)
    requires UniqueIds(g) && IsPhi(g, b, k)
    ensures forall c: nat :: c < |g| && c != b ==> OtherId(g, g[b].phis[k].id, c, |g[c].ops|, |g[c].phis|)
    ensures OtherId(g, g[b].phis[k].id, b, 0, k)
  {
    hide IsChi;
    var id := g[b].phis[k].id;
    forall c: nat | c < |g| && c != b ensures OtherId(g, id, c, |g[c].ops|, |g[c].phis|) {
      forall j: nat | j < |g[c].ops| ensures g[c].ops[j].id != id { assert IsOp(g, c, j); }
      forall j: nat | j < |g[c].phis| ensures g[c].phis[j].id != id { assert IsPhi(g, c, j); }
    }
    forall j: nat | j < k ensures g[b].phis[j].id != id { assert IsPhi(g, b, j); }
  }

  /** The live sets agree except at block `b`. */
  ghost predicate OnlyAt(live: seq<set<Value>>, before: seq<set<Value>>, b: nat) {
    |live| == |before| && b < |live| && forall c :: 0 <= c < |live| && c != b ==> live[c] == before[c]
  }

  class LiveIntervalBuilder {
    const g: Cfg
    var instSlot: map<nat, nat>
    var bbRange: seq<Range>
    var valueLi: map<Value, LiveInterval>
    var live: seq<set<Value>>

    constructor (g: Cfg)
      ensures this.g == g && valueLi == map[] && instSlot == map[]
      ensures |live| == |g| && forall b :: 0 <= b < |g| ==> live[b] == {}
    {
      this.g := g;
      instSlot := map[];
      bbRange := [];
      valueLi := map[];
      live := seq(|g|, i => {});
    }

    /** Every value has its own, non-empty interval. */
    ghost predicate Valid()
      reads this`valueLi, valueLi.Values
    {
      forall v :: v in valueLi ==> valueLi[v].value == v && valueLi[v].ranges != [] && valueLi[v].reg == REG_UNKNOWN
    }

    ghost function RangesOf(v: Value): seq<Range>
      reads this`valueLi, valueLi.Values`ranges
    {
      if v in valueLi then valueLi[v].ranges else []
    }

    // ----- numbering -------------------------------------------------------------

    ghost predicate Numbered()
      reads this`bbRange, this`instSlot
    {
      && |bbRange| == |g| && AllNumbered(g, instSlot, |g|) && ChisNumbered(g, instSlot, |g|)
      && forall b: nat :: b < |g| ==> bbRange[b] == Range(BlockStart(g, b), BlockStart(g, b + 1))
    }

    /** Numbers the instructions in layout order; phis and chis share the slot of the block entry. */
    method CalInstSlot()
      requires UniqueIds(g)
      modifies this`instSlot, this`bbRange
      ensures Numbered()
    {
      hide UniqueIds, BlockNumbered, ChisUpTo, ChiSlot;
      var slotIdx := DIST;
      bbRange := [];
      for b := 0 to |g|
        invariant slotIdx == BlockStart(g, b) && |bbRange| == b
        invariant AllNumbered(g, instSlot, b) && ChisNumbered(g, instSlot, b)
        invariant forall c: nat :: c < b ==> bbRange[c] == Range(BlockStart(g, c), BlockStart(g, c + 1))
      {
        var start := slotIdx;
        slotIdx := slotIdx + DIST;
        NumberEntries(b, start);
        slotIdx := NumberOps(b, slotIdx);
        bbRange := bbRange + [Range(start, slotIdx)];
      }
    }

    /** The chis and phis of a block. */
    method NumberEntries(b: nat, start: nat)
      requires UniqueIds(g) && b < |g| && start == Slot(g, b, 0)
      requires AllNumbered(g, instSlot, b) && ChisNumbered(g, instSlot, b)
      modifies this`instSlot
      ensures AllNumbered(g, instSlot, b) && BlockNumbered(g, instSlot, b, 0, |g[b].phis|)
      ensures ChisNumbered(g, instSlot, b + 1)
    {
      FirstChi(g, instSlot, b);
      hide UniqueIds, ChisUpTo, ChisNumbered, IsChi;
      for k := 0 to |g[b].chis|
        invariant AllNumbered(g, instSlot, b) && ChisUpTo(g, instSlot, b, k)
      {
        ChiIsOther(g, b, k);
        KeepsNumbers(g, instSlot, g[b].chis[k].id, start, b);
        NextChi(g, instSlot, b, k);
        instSlot := instSlot[g[b].chis[k].id := start];
      }
      LastChi(g, instSlot, b);
      for k := 0 to |g[b].phis|
        invariant AllNumbered(g, instSlot, b) && BlockNumbered(g, instSlot, b, 0, k)
        invariant ChisNumbered(g, instSlot, b + 1)
      {
        PhiNoChi(g, b, k);
        KeepsChis(g, instSlot, g[b].phis[k].id, start, b + 1);
        PhiIsOther(g, b, k);
        KeepsNumbers(g, instSlot, g[b].phis[k].id, start, b);
        instSlot := instSlot[g[b].phis[k].id := start];
      }
    }

    /** The other instructions of a block, from `first` on. */
    method NumberOps(b: nat, first: nat) returns (slotIdx: nat)
      requires UniqueIds(g) && b < |g| && first == Slot(g, b, 1)
      requires AllNumbered(g, instSlot, b) && BlockNumbered(g, instSlot, b, 0, |g[b].phis|)
      requires ChisNumbered(g, instSlot, b + 1)
      modifies this`instSlot
      ensures ChisNumbered(g, instSlot, b + 1)
      ensures AllNumbered(g, instSlot, b + 1) && slotIdx == BlockStart(g, b + 1)
    {
      hide UniqueIds, AllNumbered, ChisNumbered, IsChi;
      slotIdx := first;
      for k := 0 to |g[b].ops|
        invariant slotIdx == Slot(g, b, k + 1) && AllNumbered(g, instSlot, b)
        invariant BlockNumbered(g, instSlot, b, k, |g[b].phis|) && ChisNumbered(g, instSlot, b + 1)
      {
        OpNoChi(g, b, k);
        KeepsChis(g, instSlot, g[b].ops[k].id, slotIdx, b + 1);
        OpIsOther(g, b, k);
        KeepsNumbers(g, instSlot, g[b].ops[k].id, slotIdx, b);
        instSlot := instSlot[g[b].ops[k].id := slotIdx];
        slotIdx := slotIdx + DIST;
      }
      OneMoreNumbered(g, instSlot, b);
    }

    lemma BlockRange(b: nat)
      requires Numbered() && b < |g|
      ensures bbRange[b] == Range(BlockStart(g, b), BlockStart(g, b + 1)) && bbRange[b].start < bbRange[b].end
    {
    }

    lemma NumbersOf(b: nat, k: nat)
      requires Numbered() && IsOp(g, b, k)
      ensures g[b].ops[k].id in instSlot && instSlot[g[b].ops[k].id] == Slot(g, b, k + 1)
      ensures bbRange[b] == Range(BlockStart(g, b), BlockStart(g, b + 1))
    {
      assert BlockNumbered(g, instSlot, b, |g[b].ops|, |g[b].phis|);
    }

    // ----- one value ----------------------------------------------------------------

    /** Adds a range to the interval of `v`, creating it on first use. */
    method AddTo(v: Value, lr: Range)
      requires Valid() && lr.start < lr.end && Ordered(RangesOf(v))
      requires RangesOf(v) == [] || lr.start < RangesOf(v)[|RangesOf(v)| - 1].end
      modifies this`valueLi, valueLi.Values
      ensures Valid() && fresh(valueLi.Values - old(valueLi.Values))
      ensures RangesOf(v) == Added(old(RangesOf(v)), lr)
      ensures forall w :: w != v ==> RangesOf(w) == old(RangesOf(w))
    {
      if v !in valueLi {
        var fresh_ := new LiveInterval(v);
        valueLi := valueLi[v := fresh_];
      }
      AddedIs(valueLi[v].ranges, lr, 0);
      var ok := valueLi[v].AddRange(lr);
      assert ok;
    }

    method StartAt(v: Value, slot: nat)
      requires Valid() && (RangesOf(v) == [] || exists r :: r in RangesOf(v) && slot < r.end)
      modifies this`valueLi, valueLi.Values
      ensures Valid() && fresh(valueLi.Values - old(valueLi.Values))
      ensures RangesOf(v) == Started(old(RangesOf(v)), slot)
      ensures forall w :: w != v ==> RangesOf(w) == old(RangesOf(w))
    {
      if v !in valueLi {
        var fresh_ := new LiveInterval(v);
        valueLi := valueLi[v := fresh_];
      }
      valueLi[v].UpdateStartSlot(slot);
    }

    // ----- the sweep ------------------------------------------------------------------

    /** All values, at point (`b`, `k`); the live set says which are held before it. */
    ghost predicate AllSwept(b: nat, k: nat)
      requires b < |g|
      reads this`live, this`valueLi, valueLi.Values
    {
      Valid() && |live| == |g| && forall v :: Swept(g, RangesOf(v), v, b, k, v in live[b])
    }

    ghost predicate AllDone(b: nat)
      requires b <= |g|
      reads this`valueLi, valueLi.Values
    {
      Valid() && forall v :: Done(g, RangesOf(v), v, b)
    }

    /** The live sets of the first `n` blocks hold what the blocks from `b` on pass back to them. */
    ghost predicate LivePassed(n: nat, b: nat)
      requires n <= |g|
      reads this`live
    {
      |live| == |g| && forall c: nat, v :: c < n ==> (v in live[c] <==> LiveInto(g, v, c, b))
    }

    /** Collects what the phis of the successors read on the edges from `b`. */
    method CollectPhiOpnds(b: nat)
      requires b < |g| && |live| == |g| && Linked(g)
      modifies this`live
      ensures OnlyAt(live, old(live), b)
      ensures forall v :: v in live[b] <==>
                v in old(live[b]) || exists s :: s in g[b].succs && s < |g| && v in PhiUses(g, b, s)
    {
      var succs := g[b].succs;
      for i := 0 to |succs|
        invariant OnlyAt(live, old(live), b)
        invariant forall v :: v in live[b] <==>
          (v in old(live[b]) || exists j :: 0 <= j < i && succs[j] < |g| && v in PhiUses(g, b, succs[j]))
      {
        assert succs[i] in g[b].succs;
        CollectFrom(b, succs[i]);
      }
      assert forall s :: s in g[b].succs <==> exists j :: 0 <= j < |succs| && succs[j] == s;
    }

    method CollectFrom(b: nat, s: nat)
      requires b < |g| && |live| == |g| && Linked(g) && s in g[b].succs
      modifies this`live
      ensures s < |g| && OnlyAt(live, old(live), b) && live[b] == old(live[b]) + PhiUses(g, b, s)
    {
      hide IsChi;
      var id := Pos(g[s].preds, b);
      for k := 0 to |g[s].phis|
        invariant OnlyAt(live, old(live), b) && live[b] == old(live[b]) + PhiUsesUpTo(g, b, s, k)
      {
        assert g[s].phis[k] in g[s].phis;
        var opnd := g[s].phis[k].opnds[id];
        assert PhiUsesUpTo(g, b, s, k + 1) == PhiUsesUpTo(g, b, s, k) + if IsChi(g, opnd.def) then {} else {opnd};
        if IsChi(g, opnd.def) {
          continue;
        }
        live := live[b := live[b] + {opnd}];
      }
    }

    /** Every value live out of the block is held throughout the block, for now. */
    method HandleLiveOutValue(b: nat)
      requires b < |g| && WellFormed(g) && Numbered() && AllDone(b + 1) && LivePassed(b + 1, b + 1)
      modifies this`live, this`valueLi, valueLi.Values
      ensures AllSwept(b, |g[b].ops|) && fresh(valueLi.Values - old(valueLi.Values))
      ensures OnlyAt(live, old(live), b)
      ensures forall v :: v in live[b] <==> Live(g, v, b, |g[b].ops|)
    {
      hide Swept, Done, Live, WellFormed, Linked, UniqueIds, AllNumbered, BlockStart, Added, Separated, Ordered,
           LiveInto, PhiUses;
      assert Linked(g) by { Parts(g); }
      CollectPhiOpnds(b);
      LiveOutIs(b, old(live));
      ghost var out := live;
      if live[b] == {} {
        forall v ensures Swept(g, RangesOf(v), v, b, |g[b].ops|, false) {
          EnterBlock(g, RangesOf(v), v, b, false);
        }
        return;
      }
      BlockRange(b);
      var range := bbRange[b];
      var todo := live[b];
      while todo != {}
        invariant live == out && Valid() && todo <= live[b] && fresh(valueLi.Values - old(valueLi.Values))
        invariant forall v :: v in todo || v !in live[b] ==> Done(g, RangesOf(v), v, b + 1)
        invariant forall v :: v in live[b] && v !in todo ==> Swept(g, RangesOf(v), v, b, |g[b].ops|, true)
        decreases todo
      {
        var v :| v in todo;
        EnterBlock(g, RangesOf(v), v, b, true);
        DoneEnds(g, RangesOf(v), v, b);
        AddTo(v, Range(range.start, range.end));
        todo := todo - {v};
      }
      forall v ensures Swept(g, RangesOf(v), v, b, |g[b].ops|, v in live[b]) {
        if v !in live[b] {
          EnterBlock(g, RangesOf(v), v, b, false);
        }
      }
    }

    lemma LiveOutIs(b: nat, before: seq<set<Value>>)
      requires WellFormed(g) && b < |g| && |live| == |g| && |before| == |g|
      requires forall v :: v in before[b] <==> LiveInto(g, v, b, b + 1)
      requires forall v :: v in live[b] <==>
                 v in before[b] || exists s :: s in g[b].succs && s < |g| && v in PhiUses(g, b, s)
      ensures forall v :: v in live[b] <==> Live(g, v, b, |g[b].ops|)
    {
      hide Live, PhiUses, PhiDefs, UniqueIds;
      forall v ensures v in live[b] <==> Live(g, v, b, |g[b].ops|) {
        LiveOverEdges(g, v, b);
      }
    }

    /** Walks the instructions of a block backwards. */
    method HandleInst(b: nat)
      requires b < |g| && WellFormed(g) && Numbered() && AllSwept(b, |g[b].ops|)
      requires forall v :: v in live[b] <==> Live(g, v, b, |g[b].ops|)
      modifies this`live, this`valueLi, valueLi.Values
      ensures AllSwept(b, 0) && fresh(valueLi.Values - old(valueLi.Values))
      ensures OnlyAt(live, old(live), b)
      ensures forall v :: v in live[b] <==> Live(g, v, b, 0)
    {
      hide Live, Swept, WellFormed, AllNumbered, Slot;
      for k := |g[b].ops| downto 0
        invariant AllSwept(b, k) && fresh(valueLi.Values - old(valueLi.Values))
        invariant OnlyAt(live, old(live), b)
        invariant forall v :: v in live[b] <==> Live(g, v, b, k)
      {
        HandleDefs(b, k);
        HandleUses(b, k);
      }
    }

    /** Each result starts where the instruction stands and is not live before it. */
    method HandleDefs(b: nat, k: nat)
      requires IsOp(g, b, k) && WellFormed(g) && Numbered() && AllSwept(b, k + 1)
      requires forall v :: v in live[b] <==> Live(g, v, b, k + 1)
      modifies this`live, this`valueLi, valueLi.Values
      ensures AllSwept(b, k) && fresh(valueLi.Values - old(valueLi.Values))
      ensures OnlyAt(live, old(live), b)
      ensures forall v :: v in live[b] <==> Live(g, v, b, k + 1) && v !in Defs(g[b].ops[k])
    {
      hide Swept, Live, WellFormed, AllNumbered, Slot, BlockStart, Started, Separated, LiveInto;
      NumbersOf(b, k);
      assert Linked(g) && UniqueIds(g) by { Parts(g); }
      assert DefsSwept(b, k, {});
      hide Linked, UniqueIds, Numbered, Valid, RangesOf, DefsUpTo, AllSwept, DefsSwept;
      var op := g[b].ops[k];
      var slot := instSlot[op.id];
      DefsBegin(op);
      for i := 0 to |op.res|
        invariant DefsSwept(b, k, DefsUpTo(op, i)) && fresh(valueLi.Values - old(valueLi.Values))
        invariant OnlyAt(live, old(live), b) && live[b] == old(live[b]) - DefsUpTo(op, i)
      {
        DefsStep(op, i);
        if op.res[i].OtherRes? {
          continue;
        }
        var v := Value(op.res[i].preg, op.id, op.res[i].cls);
        HandleRes(b, k, v, slot, DefsUpTo(op, i));
      }
      AllDefsSwept(b, k);
    }

    /** Behind the instruction, except that the results in `done` have been handled. */
    ghost predicate DefsSwept(b: nat, k: nat, done: set<Value>)
      requires b < |g|
      reads this`live, this`valueLi, valueLi.Values
    {
      && Valid() && |live| == |g|
      && forall v :: if v in done then Swept(g, RangesOf(v), v, b, k, false)
                     else Swept(g, RangesOf(v), v, b, k + 1, v in live[b])
    }

    lemma AllDefsSwept(b: nat, k: nat)
      requires IsOp(g, b, k) && DefsSwept(b, k, Defs(g[b].ops[k]))
      requires forall v :: v in live[b] <==> Live(g, v, b, k + 1) && v !in Defs(g[b].ops[k])
      ensures AllSwept(b, k)
    {
      hide Swept, Live, RangesOf, Valid, Defs;
      forall v ensures Swept(g, RangesOf(v), v, b, k, v in live[b]) {
        if v !in Defs(g[b].ops[k]) {
          NoDefStep(g, RangesOf(v), v, b, k, v in live[b]);
        }
      }
    }

    /** One result; an instruction may name the same one twice. */
    method HandleRes(b: nat, k: nat, v: Value, slot: nat, ghost done: set<Value>)
      requires IsOp(g, b, k) && slot == Slot(g, b, k + 1) && v in Defs(g[b].ops[k])
      requires DefsSwept(b, k, done) && Linked(g) && UniqueIds(g)
      requires v in done || (v in live[b] <==> Live(g, v, b, k + 1))
      modifies this`live, this`valueLi, valueLi.Values
      ensures DefsSwept(b, k, done + {v}) && fresh(valueLi.Values - old(valueLi.Values))
      ensures OnlyAt(live, old(live), b) && live[b] == old(live[b]) - {v}
    {
      hide Swept, Live, Linked, UniqueIds, Slot, BlockStart, Started, Separated, Defs;
      if Swept(g, RangesOf(v), v, b, k, false) {
        DefAgain(g, RangesOf(v), v, b, k);
      } else {
        EndsBehind(g, RangesOf(v), v, b, k, Live(g, v, b, k + 1));
        DefStep(g, RangesOf(v), v, b, k, Live(g, v, b, k + 1));
      }
      assert RangesOf(v) == [] || RangesOf(v)[0] in RangesOf(v);
      StartAt(v, slot);
      live := live[b := live[b] - {v}];
    }

    /** Each operand is held from the start of the block up to the instruction. */
    method HandleUses(b: nat, k: nat)
      requires IsOp(g, b, k) && WellFormed(g) && Numbered() && AllSwept(b, k)
      requires forall v :: v in live[b] <==> Live(g, v, b, k + 1) && v !in Defs(g[b].ops[k])
      modifies this`live, this`valueLi, valueLi.Values
      ensures AllSwept(b, k) && fresh(valueLi.Values - old(valueLi.Values))
      ensures OnlyAt(live, old(live), b)
      ensures forall v :: v in live[b] <==> Live(g, v, b, k)
    {
      hide Swept, Live, WellFormed, AllNumbered, Slot, BlockStart, Added, Separated, Ordered, LiveInto;
      NumbersOf(b, k);
      hide Numbered, Valid, RangesOf, UsesUpTo, Defs;
      var op := g[b].ops[k];
      var slot, start := instSlot[op.id], bbRange[b].start;
      UsesBegin(op);
      assert OnlyAt(live, live, b);
      hide AllSwept;
      for i := 0 to |op.opnds|
        invariant OnlyAt(live, old(live), b) && live[b] == old(live[b]) + UsesUpTo(op, i)
        invariant AllSwept(b, k) && fresh(valueLi.Values - old(valueLi.Values))
      {
        UsesStep(op, i);
        if op.opnds[i].OtherOpnd? {
          continue;
        }
        var v := op.opnds[i].value;
        HandleUse(b, k, v, Range(start, slot));
      }
      forall v ensures v in live[b] <==> Live(g, v, b, k) {
        LiveOverOp(g, v, b, k);
      }
    }

    /** One operand, held over `lr`. */
    method HandleUse(b: nat, k: nat, v: Value, lr: Range)
      requires IsOp(g, b, k) && lr == Range(BlockStart(g, b), Slot(g, b, k + 1)) && AllSwept(b, k)
      modifies this`live, this`valueLi, valueLi.Values
      ensures AllSwept(b, k) && fresh(valueLi.Values - old(valueLi.Values))
      ensures OnlyAt(live, old(live), b) && live[b] == old(live[b]) + {v}
    {
      hide Swept, Slot, BlockStart, Added, Separated, Ordered;
      UseStep(g, RangesOf(v), v, b, k, v in live[b]);
      AddTo(v, lr);
      live := live[b := live[b] + {v}];
    }

    /** Phi results are not live before the block, where the block is a join. */
    method HandlePhiRes(b: nat)
      requires b < |g| && |live| == |g|
      modifies this`live
      ensures OnlyAt(live, old(live), b) && live[b] == old(live[b]) - PhiDefs(g[b])
    {
      if |g[b].preds| <= 1 {
        return;
      }
      ghost var gone: set<Value> := {};
      for k := 0 to |g[b].phis|
        invariant OnlyAt(live, old(live), b) && live[b] == old(live[b]) - gone
        invariant gone == set j | 0 <= j < |g[b].phis| && j < k :: PhiValue(g[b].phis[j])
      {
        live := live[b := live[b] - {PhiValue(g[b].phis[k])}];
        gone := gone + {PhiValue(g[b].phis[k])};
      }
      assert gone == PhiDefs(g[b]);
    }

    /** What is live into `b` becomes live out of its predecessors. */
    method PassLive(b: nat)
      requires b < |g| && WellFormed(g) && LivePassed(b, b + 1)
      requires forall v :: v in live[b] <==> Live(g, v, b, 0) && v !in PhiDefs(g[b])
      modifies this`live
      ensures LivePassed(b, b)
    {
      hide Live, PhiDefs, UniqueIds, LiveInto;
      var preds := g[b].preds;
      for i := 0 to |preds|
        invariant |live| == |g| && live[b] == old(live[b])
        invariant forall c: nat :: c < b ==>
          live[c] == old(live[c]) + if c in preds[..i] then live[b] else {}
      {
        var p := preds[i];
        assert p in g[b].preds;
        assert p < |g| && b in g[p].succs;
        live := live[p := live[p] + live[b]];
        assert preds[..i + 1] == preds[..i] + [p];
      }
      assert preds[..|preds|] == preds;
      forall c: nat, v | c < b ensures v in live[c] <==> LiveInto(g, v, c, b) {
        IntoStep(g, v, c, b);
        assert live[c] == old(live[c]) + if c in preds then live[b] else {};
        assert v in old(live[c]) <==> LiveInto(g, v, c, b + 1);
      }
    }

    method GenLiveInterval()
      requires WellFormed(g) && Numbered() && valueLi == map[]
      requires |live| == |g| && forall b :: 0 <= b < |g| ==> live[b] == {}
      modifies this`live, this`valueLi
      ensures AllDone(0) && fresh(valueLi.Values)
    {
      hide Live, Swept, Done, WellFormed, UniqueIds, AllNumbered, PhiDefs;
      forall v ensures Done(g, [], v, |g|) {
        NothingDone(g, v);
      }
      NothingPassed(g);
      for b := |g| downto 0
        invariant AllDone(b) && LivePassed(b, b) && fresh(valueLi.Values)
      {
        HandleLiveOutValue(b);
        HandleInst(b);
        forall v ensures Done(g, RangesOf(v), v, b) {
          LeaveBlock(g, RangesOf(v), v, b);
        }
        HandlePhiRes(b);
        PassLive(b);
      }
    }

    /** All intervals, sorted by ranges and values. */
    method Update() returns (li: seq<LiveInterval>)
      requires Valid()
      ensures ByStart(li) && InLiOrder(li) && NoDup(li)
      ensures (forall v :: v in valueLi ==> valueLi[v] in li) && forall x :: x in li ==> x in valueLi.Values
    {
      li := [];
      var todo := valueLi.Keys;
      while todo != {}
        invariant todo <= valueLi.Keys && ByStart(li) && InLiOrder(li) && NoDup(li)
        invariant forall x :: x in li <==> exists v :: v in valueLi && v !in todo && valueLi[v] == x
        decreases todo
      {
        var v :| v in todo;
        ghost var before := li;
        assert valueLi[v] !in li;
        li := Insert(valueLi[v], li);
        InsertedOnce(before, valueLi[v], li);
        todo := todo - {v};
      }
    }

    /** One interval for each value, holding exactly the slots the value needs. */
    method Run() returns (li: seq<LiveInterval>)
      requires WellFormed(g) && valueLi == map[]
      requires |live| == |g| && forall b :: 0 <= b < |g| ==> live[b] == {}
      modifies this
      ensures Numbered() && Valid() && AllDone(0) && fresh(valueLi.Values) && forall i :: 0 <= i < |li| ==> fresh(li[i])
      ensures ByStart(li) && InLiOrder(li) && NoDup(li)
      ensures (forall v :: v in valueLi ==> valueLi[v] in li) && forall x :: x in li ==> x in valueLi.Values
    {
      CalInstSlot();
      GenLiveInterval();
      li := Update();
      forall i | 0 <= i < |li| ensures fresh(li[i]) {
        assert li[i] in li;
      }
    }
  }

  lemma DefsBegin(op: Op)
    ensures DefsUpTo(op, 0) == {}
  {
  }

  lemma UsesBegin(op: Op)
    ensures UsesUpTo(op, 0) == {}
  {
  }

  lemma DefsStep(op: Op, i: nat)
    requires i < |op.res|
    ensures DefsUpTo(op, i) <= Defs(op)
    ensures DefsUpTo(op, i + 1) == DefsUpTo(op, i) +
              if op.res[i].PregRes? then {Value(op.res[i].preg, op.id, op.res[i].cls)} else {}
    ensures op.res[i].PregRes? ==> Value(op.res[i].preg, op.id, op.res[i].cls) in Defs(op)
  {
  }

  lemma UsesStep(op: Op, i: nat)
    requires i < |op.opnds|
    ensures UsesUpTo(op, i + 1) == UsesUpTo(op, i) + if op.opnds[i].PregOpnd? then {op.opnds[i].value} else {}
  {
  }

  lemma InsertedOnce(li: seq<LiveInterval>, x: LiveInterval, out: seq<LiveInterval>)
    requires NoDup(li) && x !in li
    requires exists i :: 0 <= i <= |li| && out == li[..i] + [x] + li[i..]
    ensures NoDup(out) && forall y :: y in out <==> y == x || y in li
  {
    var i :| 0 <= i <= |li| && out == li[..i] + [x] + li[i..];
    assert li == li[..i] + li[i..];
    forall a, b | 0 <= a < b < |out| ensures out[a] != out[b] {
      assert a != i ==> out[a] == li[if a < i then a else a - 1];
      assert b != i ==> out[b] == li[if b < i then b else b - 1];
    }
  }

  lemma Parts(g: Cfg)
    requires WellFormed(g)
    ensures Linked(g) && UniqueIds(g) && Forward(g)
  {
  }

  lemma NothingDone(g: Cfg, v: Value)
    ensures Done(g, [], v, |g|)
  {
  }

  lemma NothingPassed(g: Cfg)
    ensures forall c: nat, v :: c < |g| ==> !LiveInto(g, v, c, |g|)
  {
  }

  lemma DoneEnds(g: Cfg, rs: seq<Range>, v: Value, b: nat)
    requires b < |g| && Done(g, rs, v, b + 1)
    ensures Ordered(rs) && (rs != [] ==> BlockStart(g, b) < rs[|rs| - 1].end)
  {
    if rs != [] {
      assert rs[|rs| - 1] in rs;
    }
  }

  /** One more block passes back its live values. */
  lemma IntoStep(g: Cfg, v: Value, c: nat, b: nat)
    requires Linked(g) && c < b < |g|
    ensures LiveInto(g, v, c, b) <==>
            LiveInto(g, v, c, b + 1) || (c in g[b].preds && v !in PhiDefs(g[b]) && Live(g, v, b, 0))
  {
    hide Live, PhiDefs;
  }
}
