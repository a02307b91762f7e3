/**
  The control-flow graph in SSA form the register allocator works on, the slots
  of its instructions, and liveness: a value is live at a point when some path
  leads from there to a use of it without passing its definition.
 */
module Liveness {
  import opened LiveIntervals

  // ----- the graph ---------------------------------------------------------------

  /** Operands that are not pseudo registers: immediates, blocks, physical registers. */
  datatype Res = PregRes(preg: nat, cls: nat) | OtherRes
  datatype Opnd = PregOpnd(value: Value) | OtherOpnd

  datatype Op = Op(id: nat, res: seq<Res>, opnds: seq<Opnd>)

  /** A chi stands for a value that is not defined within the function body. */
  datatype Chi = Chi(id: nat, preg: nat, cls: nat)

  /** One operand for each predecessor. */
  datatype Phi = Phi(id: nat, preg: nat, cls: nat, opnds: seq<Value>)

  /** Blocks are numbered in layout order; chis and phis come before the other instructions. */
  datatype Block = Block(chis: seq<Chi>, phis: seq<Phi>, ops: seq<Op>, preds: seq<nat>, succs: seq<nat>)

  type Cfg = seq<Block>

  /** The pseudo registers among the first `n` results. */
  function DefsUpTo(op: Op, n: nat): set<Value> {
    set k | 0 <= k < |op.res| && k < n && op.res[k].PregRes? :: Value(op.res[k].preg, op.id, op.res[k].cls)
  }

  function Defs(op: Op): set<Value> {
    DefsUpTo(op, |op.res|)
  }

  function UsesUpTo(op: Op, n: nat): set<Value> {
    set k | 0 <= k < |op.opnds| && k < n && op.opnds[k].PregOpnd? :: op.opnds[k].value
  }

  function Uses(op: Op): set<Value> {
    UsesUpTo(op, |op.opnds|)
  }

  function PhiValue(phi: Phi): Value {
    Value(phi.preg, phi.id, phi.cls)
  }

  /** The phis of a block with at most one predecessor are taken for no definitions. */
  function PhiDefs(b: Block): set<Value> {
    if |b.preds| <= 1 then {} else set k | 0 <= k < |b.phis| :: PhiValue(b.phis[k])
  }

  /** Position of the edge from `b` among the predecessors. */
  function Pos(preds: seq<nat>, b: nat): (k: nat)
    ensures b in preds ==> k < |preds| && preds[k] == b
  {
    if preds == [] || preds[0] == b then 0 else 1 + Pos(preds[1..], b)
  }

  predicate IsChi(g: Cfg, id: nat) {
    exists b, k :: 0 <= b < |g| && 0 <= k < |g[b].chis| && g[b].chis[k].id == id
  }

  /** What the first `n` phis of `s` read on the edge from `b`, except for chis. */
  function PhiUsesUpTo(g: Cfg, b: nat, s: nat, n: nat): set<Value>
    requires s < |g|
  {
    var i := Pos(g[s].preds, b);
    set k | 0 <= k < |g[s].phis| && k < n && i < |g[s].phis[k].opnds| && !IsChi(g, g[s].phis[k].opnds[i].def)
      :: g[s].phis[k].opnds[i]
  }

  function PhiUses(g: Cfg, b: nat, s: nat): set<Value>
    requires s < |g|
  {
    PhiUsesUpTo(g, b, s, |g[s].phis|)
  }

  /** Predecessors and successors mirror each other; a phi has an operand for each predecessor. */
  ghost predicate Linked(g: Cfg) {
    && (forall b, s :: 0 <= b < |g| && s in g[b].succs ==> s < |g| && b in g[s].preds)
    && (forall b, p :: 0 <= b < |g| && p in g[b].preds ==> p < |g| && b in g[p].succs)
    && (forall b, phi :: 0 <= b < |g| && phi in g[b].phis ==> |phi.opnds| == |g[b].preds|)
  }

  /** An instruction identifier names one instruction. */
  ghost predicate UniqueIds(g: Cfg) {
    && (forall b: nat, k: nat, c: nat, j: nat :: IsOp(g, b, k) && IsOp(g, c, j) ==>
          (g[b].ops[k].id == g[c].ops[j].id ==> b == c && k == j))
    && (forall b: nat, k: nat, c: nat, j: nat :: IsPhi(g, b, k) && IsPhi(g, c, j) ==>
          (g[b].phis[k].id == g[c].phis[j].id ==> b == c && k == j))
    && (forall b: nat, k: nat, c: nat, j: nat :: IsOp(g, b, k) && IsPhi(g, c, j) ==>
          g[b].ops[k].id != g[c].phis[j].id)
    && (forall b: nat, k: nat :: IsOp(g, b, k) ==> !IsChi(g, g[b].ops[k].id))
    && (forall b: nat, k: nat :: IsPhi(g, b, k) ==> !IsChi(g, g[b].phis[k].id))
  }

  predicate IsOp(g: Cfg, b: nat, k: nat) {
    b < |g| && k < |g[b].ops|
  }

  predicate IsPhi(g: Cfg, b: nat, k: nat) {
    b < |g| && k < |g[b].phis|
  }

  /** No loops: every edge leads to a later block of the layout. */
  ghost predicate Forward(g: Cfg) {
    forall b, s :: 0 <= b < |g| && s in g[b].succs ==> b < s
  }

  ghost predicate WellFormed(g: Cfg) {
    Linked(g) && UniqueIds(g) && Forward(g)
  }

  // ----- points and slots ----------------------------------------------------------

  /** `k` counts the instructions of block `b` that lie before the point. */
  ghost predicate IsPoint(g: Cfg, b: nat, k: nat) {
    b < |g| && k <= |g[b].ops|
  }

  function BlockStart(g: Cfg, b: nat): nat
    requires b <= |g|
  {
    if b == 0 then DIST else BlockStart(g, b - 1) + DIST + DIST * |g[b - 1].ops|
  }

  /** The slot of the block entry (`k` = 0) or of instruction `k - 1`. */
  function Slot(g: Cfg, b: nat, k: nat): nat
    requires b < |g|
  {
    BlockStart(g, b) + DIST * k
  }

  ghost predicate SlotAt(g: Cfg, b: nat, k: nat, slot: nat)
    requires b < |g|
  {
    Slot(g, b, k) <= slot < Slot(g, b, k) + DIST
  }

  lemma {:induction false} StartsGrow(g: Cfg, b: nat, c: nat)
    requires b < c <= |g|
    ensures BlockStart(g, b) + DIST + DIST * |g[b].ops| <= BlockStart(g, c)
  {
    if b < c - 1 {
      StartsGrow(g, b, c - 1);
    }
  }

  /** Later points in layout order have later slots, and every slot belongs to one point only. */
  lemma SlotsInOrder(g: Cfg, b: nat, k: nat, c: nat, j: nat)
    requires IsPoint(g, b, k) && IsPoint(g, c, j)
    requires b < c || (b == c && k < j)
    ensures Slot(g, b, k) + DIST <= Slot(g, c, j)
  {
    if b < c {
      StartsGrow(g, b, c);
    }
  }

  // ----- liveness --------------------------------------------------------------------

  datatype Pt = Pt(b: nat, k: nat)

  /** The next instruction, or the phis on an edge out of the block, read `v`. */
  ghost predicate UsedNext(g: Cfg, v: Value, p: Pt)
    requires IsPoint(g, p.b, p.k)
  {
    if p.k < |g[p.b].ops| then v in Uses(g[p.b].ops[p.k])
    else exists s :: s in g[p.b].succs && s < |g| && v in PhiUses(g, p.b, s)
  }

  /** Control passes from `p` to `q` and `v` is not defined on the way. */
  ghost predicate Passes(g: Cfg, v: Value, p: Pt, q: Pt)
    requires IsPoint(g, p.b, p.k) && IsPoint(g, q.b, q.k)
  {
    if p.k < |g[p.b].ops| then
      q == Pt(p.b, p.k + 1) && v !in Defs(g[p.b].ops[p.k])
    else
      q.b in g[p.b].succs && q.k == 0 && v !in PhiDefs(g[q.b])
  }

  /** A path from its first point to a use of `v` that does not pass a definition of `v`. */
  ghost predicate UsePath(g: Cfg, v: Value, path: seq<Pt>) {
    && path != []
    && (forall i :: 0 <= i < |path| ==> IsPoint(g, path[i].b, path[i].k))
    && (forall i :: 0 < i < |path| ==> Passes(g, v, path[i - 1], path[i]))
    && UsedNext(g, v, path[|path| - 1])
  }

  ghost predicate Live(g: Cfg, v: Value, b: nat, k: nat) {
    exists path :: UsePath(g, v, path) && path[0] == Pt(b, k)
  }

  /** Live, or just defined: `v` must have a register of its own here. */
  ghost predicate Occupied(g: Cfg, v: Value, b: nat, k: nat)
    requires IsPoint(g, b, k)
  {
    Live(g, v, b, k) || (k > 0 && v in Defs(g[b].ops[k - 1]))
  }

  lemma LiveNow(g: Cfg, v: Value, p: Pt)
    requires IsPoint(g, p.b, p.k) && UsedNext(g, v, p)
    ensures Live(g, v, p.b, p.k)
  {
    assert UsePath(g, v, [p]);
  }

  lemma LiveBefore(g: Cfg, v: Value, p: Pt, q: Pt)
    requires IsPoint(g, p.b, p.k) && IsPoint(g, q.b, q.k)
    requires Passes(g, v, p, q) && Live(g, v, q.b, q.k)
    ensures Live(g, v, p.b, p.k)
  {
    var path :| UsePath(g, v, path) && path[0] == q;
    assert UsePath(g, v, [p] + path);
  }

  lemma LiveNext(g: Cfg, v: Value, p: Pt) returns (q: Pt)
    requires IsPoint(g, p.b, p.k) && Live(g, v, p.b, p.k) && !UsedNext(g, v, p)
    ensures IsPoint(g, q.b, q.k) && Passes(g, v, p, q) && Live(g, v, q.b, q.k)
  {
    var path :| UsePath(g, v, path) && path[0] == p;
    assert |path| > 1;
    q := path[1];
    assert Passes(g, v, path[0], path[1]);
    assert UsePath(g, v, path[1..]);
  }

  /** Liveness before an instruction, from liveness after it. */
  lemma LiveOverOp(g: Cfg, v: Value, b: nat, k: nat)
    requires b < |g| && k < |g[b].ops|
    ensures Live(g, v, b, k) <==>
            v in Uses(g[b].ops[k]) || (v !in Defs(g[b].ops[k]) && Live(g, v, b, k + 1))
  {
    var p, q := Pt(b, k), Pt(b, k + 1);
    if v in Uses(g[b].ops[k]) {
      LiveNow(g, v, p);
    } else {
      if v !in Defs(g[b].ops[k]) && Live(g, v, b, k + 1) {
        LiveBefore(g, v, p, q);
      }
      if Live(g, v, b, k) {
        var r := LiveNext(g, v, p);
      }
    }
  }

  /** `v` is needed on the edge from `b` to `s`. */
  ghost predicate LiveOnEdge(g: Cfg, v: Value, b: nat, s: nat)
    requires s < |g|
  {
    v in PhiUses(g, b, s) || (v !in PhiDefs(g[s]) && Live(g, v, s, 0))
  }

  /** Liveness at the end of a block, from the edges out of it. */
  lemma LiveOverEdges(g: Cfg, v: Value, b: nat)
    requires b < |g| && Linked(g)
    ensures Live(g, v, b, |g[b].ops|) <==> exists s :: s in g[b].succs && s < |g| && LiveOnEdge(g, v, b, s)
  {
    var p := Pt(b, |g[b].ops|);
    forall s | s in g[b].succs && s < |g| && LiveOnEdge(g, v, b, s) ensures Live(g, v, b, |g[b].ops|) {
      if v in PhiUses(g, b, s) {
        LiveNow(g, v, p);
      } else {
        LiveBefore(g, v, p, Pt(s, 0));
      }
    }
    if Live(g, v, b, |g[b].ops|) {
      if UsedNext(g, v, p) {
        var s :| s in g[b].succs && s < |g| && v in PhiUses(g, b, s);
        assert LiveOnEdge(g, v, b, s);
      } else {
        var q := LiveNext(g, v, p);
        assert LiveOnEdge(g, v, b, q.b);
      }
    }
  }

  // ----- strict SSA form -----------------------------------------------------------------

  /** `path` leads along edges from the entry block to its last block. */
  ghost predicate FromEntry(g: Cfg, path: seq<nat>) {
    && path != [] && path[0] == 0
    && (forall i :: 0 <= i < |path| ==> path[i] < |g|)
    && (forall i :: 0 < i < |path| ==> path[i] in g[path[i - 1]].succs)
  }

  ghost predicate Reachable(g: Cfg, b: nat) {
    exists path :: FromEntry(g, path) && path[|path| - 1] == b
  }

  /**
    Every block is reachable, phis stand at joins only, and no path leads from
    the entry to a use without passing the definition.
   */
  ghost predicate Strict(g: Cfg) {
    && (forall b :: 0 <= b < |g| ==> Reachable(g, b))
    && (forall b :: 0 <= b < |g| && g[b].phis != [] ==> |g[b].preds| > 1)
    && (forall v :: Live(g, v, 0, 0) ==> IsChi(g, v.def))
  }

  /** `v` is defined right before this point, by an instruction or by a phi. */
  ghost predicate DefinedAt(g: Cfg, v: Value, b: nat, k: nat) {
    && IsPoint(g, b, k)
    && if k > 0 then v in Defs(g[b].ops[k - 1]) else v in PhiDefs(g[b])
  }

  ghost predicate LiveAtDef(g: Cfg, v: Value) {
    exists b, k :: DefinedAt(g, v, b, k) && Live(g, v, b, k)
  }

  lemma LiveWhereDefined(g: Cfg, v: Value, b: nat, k: nat)
    requires DefinedAt(g, v, b, k) && Live(g, v, b, k)
    ensures LiveAtDef(g, v)
  {
  }

  /** Going back inside a block, a live value stays live until it is defined. */
  lemma {:induction false} BackInBlock(g: Cfg, v: Value, b: nat, k: nat)
    requires IsPoint(g, b, k) && Live(g, v, b, k)
    ensures Live(g, v, b, 0) || LiveAtDef(g, v)
    decreases k
  {
    if k > 0 {
      if v in Defs(g[b].ops[k - 1]) {
        assert DefinedAt(g, v, b, k);
      } else {
        LiveOverOp(g, v, b, k - 1);
        BackInBlock(g, v, b, k - 1);
      }
    }
  }

  /** Going back along a path to the entry, a live value meets its definition. */
  lemma {:induction false} BackToDef(g: Cfg, v: Value, path: seq<nat>)
    requires Linked(g) && FromEntry(g, path) && Live(g, v, path[|path| - 1], 0)
    requires !Live(g, v, 0, 0)
    ensures LiveAtDef(g, v)
    decreases |path|
  {
    hide Live, LiveAtDef, PhiDefs, PhiUses, Defs;
    var b := path[|path| - 1];
    if v in PhiDefs(g[b]) {
      LiveWhereDefined(g, v, b, 0);
    } else {
      assert |path| > 1;
      var c := path[|path| - 2];
      assert b in g[c].succs && LiveOnEdge(g, v, c, b);
      LiveOverEdges(g, v, c);
      BackInBlock(g, v, c, |g[c].ops|);
      if !LiveAtDef(g, v) {
        var shorter := path[..|path| - 1];
        assert forall i :: 0 <= i < |shorter| ==> shorter[i] == path[i];
        BackToDef(g, v, shorter);
      }
    }
  }

  /** In strict SSA form a value that is live anywhere is live right after its definition. */
  lemma LiveMeetsDef(g: Cfg, v: Value, b: nat, k: nat)
    requires Linked(g) && Strict(g) && !IsChi(g, v.def)
    requires IsPoint(g, b, k) && Live(g, v, b, k)
    ensures LiveAtDef(g, v)
  {
    hide Live, LiveAtDef, Linked, IsChi;
    BackInBlock(g, v, b, k);
    if !LiveAtDef(g, v) {
      assert Reachable(g, b);
      var path :| FromEntry(g, path) && path[|path| - 1] == b;
      BackToDef(g, v, path);
    }
  }

  /** A value has one definition. */
  lemma OneDef(g: Cfg, v: Value, b: nat, k: nat, c: nat, j: nat)
    requires UniqueIds(g) && DefinedAt(g, v, b, k) && DefinedAt(g, v, c, j)
    ensures b == c && k == j
  {
    var i := DefId(g, v, b, k);
    var i' := DefId(g, v, c, j);
  }

  lemma DefId(g: Cfg, v: Value, b: nat, k: nat) returns (i: nat)
    requires DefinedAt(g, v, b, k)
    ensures k > 0 ==> g[b].ops[k - 1].id == v.def
    ensures k == 0 ==> i < |g[b].phis| && g[b].phis[i].id == v.def
  {
    i := 0;
    if k == 0 {
      i :| 0 <= i < |g[b].phis| && PhiValue(g[b].phis[i]) == v;
    }
  }
}
