/**
  The last step of register allocation: the defining instructions get their
  registers, and every phi is replaced by moves at the end of the predecessors.
 */
module Rewriting {
  import opened LiveIntervals
  import opened Liveness
  import opened Execution
  import opened Moves

  /** The first result of an instruction that defines `v` is `v`. */
  predicate FirstResult(g: Cfg, v: Value) {
    || (exists b, k :: 0 <= b < |g| && 0 <= k < |g[b].ops| && g[b].ops[k].id == v.def
                       && g[b].ops[k].res != [] && g[b].ops[k].res[0].PregRes? && g[b].ops[k].res[0].preg == v.preg)
    || (exists b, k :: 0 <= b < |g| && 0 <= k < |g[b].phis| && g[b].phis[k].id == v.def && g[b].phis[k].preg == v.preg)
    || (exists b, k :: 0 <= b < |g| && 0 <= k < |g[b].chis| && g[b].chis[k].id == v.def && g[b].chis[k].preg == v.preg)
  }

  /** Of the results of an instruction exactly those in its first pseudo register pass; there is one at most. */
  lemma FirstResultIff(g: Cfg, b: nat, k: nat, j: nat)
    requires UniqueIds(g) && IsOp(g, b, k) && j < |g[b].ops[k].res| && g[b].ops[k].res[j].PregRes?
    ensures var op := g[b].ops[k];
            FirstResult(g, ResValue(op, j)) <==> op.res[0].PregRes? && op.res[0].preg == op.res[j].preg
  {
    hide UniqueIds;
    var op := g[b].ops[k];
    var v := ResValue(op, j);
    OnlyThisOp(g, b, k);
    if op.res[0].PregRes? && op.res[0].preg == v.preg {
      assert g[b].ops[k].id == v.def;
    }
  }

  lemma OnlyThisOp(g: Cfg, b: nat, k: nat)
    requires UniqueIds(g) && IsOp(g, b, k)
    ensures forall c: nat, j: nat :: IsOp(g, c, j) && g[c].ops[j].id == g[b].ops[k].id ==> c == b && j == k
    ensures forall c: nat, j: nat :: IsPhi(g, c, j) ==> g[c].phis[j].id != g[b].ops[k].id
    ensures forall c, j :: 0 <= c < |g| && 0 <= j < |g[c].chis| ==> g[c].chis[j].id != g[b].ops[k].id
  {
    assert !IsChi(g, g[b].ops[k].id);
  }

  /** The loop over a block stops before its last instruction. */
  function Visited(b: Block): (n: nat)
    ensures n <= |b.phis|
  {
    if b.ops == [] && b.phis != [] then |b.phis| - 1 else |b.phis|
  }

  function RegNum(asg: Assignment, v: Value): nat {
    RegOf(asg, v).1
  }

  /** The moves to block `b` for the first `n` operands of phi `k` of `s`; none where the numbers are equal. */
  function OperandMoves(g: Cfg, asg: Assignment, b: nat, s: nat, k: nat, n: nat): seq<Move>
    requires IsPhi(g, s, k) && n <= |g[s].phis[k].opnds| && n <= |g[s].preds|
  {
    if n == 0 then []
    else
      var res, opnd := PhiValue(g[s].phis[k]), g[s].phis[k].opnds[n - 1];
      OperandMoves(g, asg, b, s, k, n - 1) +
      if g[s].preds[n - 1] == b && RegNum(asg, opnd) != RegNum(asg, res)
      then [Move(RegOf(asg, res), RegOf(asg, opnd))] else []
  }

  function PhiMoves(g: Cfg, asg: Assignment, b: nat, s: nat, k: nat): seq<Move>
    requires Linked(g) && IsPhi(g, s, k)
  {
    assert g[s].phis[k] in g[s].phis;
    if RegNum(asg, PhiValue(g[s].phis[k])) == REG_UNKNOWN then []
    else OperandMoves(g, asg, b, s, k, |g[s].preds|)
  }

  /** The moves to block `b` for the first `m` phis of `s`. */
  function BlockMoves(g: Cfg, asg: Assignment, b: nat, s: nat, m: nat): seq<Move>
    requires Linked(g) && s < |g| && m <= |g[s].phis|
  {
    if m == 0 then [] else BlockMoves(g, asg, b, s, m - 1) + PhiMoves(g, asg, b, s, m - 1)
  }

  /** What the phis of the first `n` blocks append to block `b`, in order. */
  function MovesInto(g: Cfg, asg: Assignment, b: nat, n: nat): seq<Move>
    requires Linked(g) && n <= |g|
  {
    if n == 0 then [] else MovesInto(g, asg, b, n - 1) + BlockMoves(g, asg, b, n - 1, Visited(g[n - 1]))
  }

  /** The operands of a visited phi with a register have registers. */
  predicate OperandsHeld(g: Cfg, asg: Assignment) {
    forall s, k, i | 0 <= s < |g| && 0 <= k < Visited(g[s]) && 0 <= i < |g[s].phis[k].opnds| ::
      RegNum(asg, PhiValue(g[s].phis[k])) != REG_UNKNOWN ==> RegNum(asg, g[s].phis[k].opnds[i]) != REG_UNKNOWN
  }

  /** No assertion of the rewriter fails. */
  predicate Rewritable(g: Cfg, asg: Assignment) {
    (forall v :: v in asg ==> FirstResult(g, v)) && OperandsHeld(g, asg)
  }

  lemma PredBelow(g: Cfg, s: nat, p: nat)
    requires Linked(g) && s < |g| && p in g[s].preds
    ensures p < |g| && s in g[p].succs
  {
  }

  lemma PhiShape(g: Cfg, s: nat, k: nat)
    requires Linked(g) && IsPhi(g, s, k)
    ensures |g[s].phis[k].opnds| == |g[s].preds|
    ensures forall i :: 0 <= i < |g[s].preds| ==> g[s].preds[i] < |g|
  {
    assert g[s].phis[k] in g[s].phis;
    forall i | 0 <= i < |g[s].preds| ensures g[s].preds[i] < |g| {
      var p := g[s].preds[i];
      assert p in g[s].preds;
      PredBelow(g, s, p);
    }
  }

  ghost predicate HeldAt(g: Cfg, asg: Assignment, s: nat, k: nat, n: nat)
    requires IsPhi(g, s, k) && n <= |g[s].phis[k].opnds|
  {
    RegNum(asg, PhiValue(g[s].phis[k])) != REG_UNKNOWN ==>
      forall i :: 0 <= i < n ==> RegNum(asg, g[s].phis[k].opnds[i]) != REG_UNKNOWN
  }

  function WithMove(moves: seq<seq<Move>>, b: nat, m: Move): seq<seq<Move>>
    requires b < |moves|
  {
    moves[b := moves[b] + [m]]
  }

  lemma HeldNoneYet(g: Cfg, asg: Assignment, s: nat, k: nat)
    requires IsPhi(g, s, k)
    ensures HeldAt(g, asg, s, k, 0)
    ensures RegNum(asg, PhiValue(g[s].phis[k])) == REG_UNKNOWN ==> HeldAt(g, asg, s, k, |g[s].phis[k].opnds|)
  {
  }

  lemma HeldStep(g: Cfg, asg: Assignment, s: nat, k: nat, n: nat)
    requires IsPhi(g, s, k) && n < |g[s].phis[k].opnds| && RegNum(asg, PhiValue(g[s].phis[k])) != REG_UNKNOWN
    ensures HeldAt(g, asg, s, k, n + 1) <==>
            HeldAt(g, asg, s, k, n) && RegNum(asg, g[s].phis[k].opnds[n]) != REG_UNKNOWN
    ensures HeldAt(g, asg, s, k, |g[s].phis[k].opnds|) ==> HeldAt(g, asg, s, k, n + 1)
  {
    hide RegNum;
  }

  /** `values` are the values of the intervals, in the order of the list. */
  class PregRewriter {
    const g: Cfg
    const asg: Assignment
    const values: seq<Value>
    /** What was appended to each block. */
    var moves: seq<seq<Move>>

    constructor (g: Cfg, asg: Assignment, values: seq<Value>)
      ensures this.g == g && this.asg == asg && this.values == values && moves == seq(|g|, _ => [])
    {
      this.g, this.asg, this.values := g, asg, values;
      moves := seq(|g|, _ => []);
    }

    /** What the blocks have received when phi `k` of block `s` is next. */
    ghost predicate MovedUpTo(now: seq<seq<Move>>, s: nat, k: nat)
      requires Linked(g) && s <= |g| && if s < |g| then k <= |g[s].phis| else k == 0
    {
      |now| == |g| && forall b: nat :: b < |g| ==>
        now[b] == MovesInto(g, asg, b, s) + if s < |g| then BlockMoves(g, asg, b, s, k) else []
    }

    method RewriteDefs() returns (ok: bool)
      ensures ok <==> forall v :: v in values ==> FirstResult(g, v)
    {
      for i := 0 to |values|
        invariant forall j :: 0 <= j < i ==> FirstResult(g, values[j])
      {
        if !FirstResult(g, values[i]) {
          return false;
        }
      }
      ok := true;
    }

    method RewritePhi(s: nat, k: nat) returns (ok: bool)
      requires Linked(g) && IsPhi(g, s, k) && MovedUpTo(moves, s, k)
      modifies this`moves
      ensures ok <==> HeldAt(g, asg, s, k, |g[s].phis[k].opnds|)
      ensures ok ==> MovedUpTo(moves, s, k + 1)
    {
      PhiShape(g, s, k);
      HeldNoneYet(g, asg, s, k);
      hide Linked, RegNum, RegOf, OperandMoves, Appended, MovedUpTo, HeldAt, WithMove;
      var res, opnds := PhiValue(g[s].phis[k]), g[s].phis[k].opnds;
      ok := true;
      if RegNum(asg, res) == REG_UNKNOWN {
        PhiDropped(moves, s, k);
        return;
      }
      ghost var was := moves;
      SameBlocks(was, s, k);
      NothingAppended(was, s, k);
      for id := 0 to |opnds|
        invariant HeldAt(g, asg, s, k, id) && Appended(was, moves, s, k, id)
      {
        HeldStep(g, asg, s, k, id);
        var opnd := opnds[id];
        if RegNum(asg, opnd) == REG_UNKNOWN {
          return false;
        }
        ghost var before := moves;
        BlocksOf(was, before, s, k, id);
        if RegNum(asg, opnd) != RegNum(asg, res) {
          var pred := g[s].preds[id];
          Append(pred, Move(RegOf(asg, res), RegOf(asg, opnd)));
        }
        OneAppended(was, before, moves, s, k, id);
      }
      PhiAppended(was, moves, s, k);
    }

    /** The move goes behind everything in the block. */
    method Append(b: nat, m: Move)
      requires b < |moves|
      modifies this`moves
      ensures moves == WithMove(old(moves), b, m)
    {
      moves := moves[b := moves[b] + [m]];
    }

    /** What the first `n` operands of a phi append. */
    ghost predicate Appended(was: seq<seq<Move>>, now: seq<seq<Move>>, s: nat, k: nat, n: nat)
      requires IsPhi(g, s, k) && n <= |g[s].phis[k].opnds| && n <= |g[s].preds|
    {
      |was| == |now| == |g| && forall b: nat :: b < |g| ==> now[b] == was[b] + OperandMoves(g, asg, b, s, k, n)
    }

    lemma SameBlocks(now: seq<seq<Move>>, s: nat, k: nat)
      requires Linked(g) && IsPhi(g, s, k) && MovedUpTo(now, s, k)
      ensures |now| == |g|
    {
    }

    lemma BlocksOf(was: seq<seq<Move>>, now: seq<seq<Move>>, s: nat, k: nat, n: nat)
      requires IsPhi(g, s, k) && n <= |g[s].phis[k].opnds| && n <= |g[s].preds| && Appended(was, now, s, k, n)
      ensures |now| == |g|
    {
    }

    lemma NothingAppended(was: seq<seq<Move>>, s: nat, k: nat)
      requires IsPhi(g, s, k) && |was| == |g|
      ensures Appended(was, was, s, k, 0)
    {
    }

    lemma OneAppended(was: seq<seq<Move>>, before: seq<seq<Move>>, now: seq<seq<Move>>, s: nat, k: nat, n: nat)
      requires IsPhi(g, s, k) && n < |g[s].phis[k].opnds| && n < |g[s].preds| && g[s].preds[n] < |g|
      requires Appended(was, before, s, k, n)
      requires var pred, res, opnd := g[s].preds[n], PhiValue(g[s].phis[k]), g[s].phis[k].opnds[n];
               now == if RegNum(asg, opnd) == RegNum(asg, res) then before
                      else WithMove(before, pred, Move(RegOf(asg, res), RegOf(asg, opnd)))
      ensures Appended(was, now, s, k, n + 1)
    {
      hide RegNum, RegOf;
    }

    lemma PhiDropped(now: seq<seq<Move>>, s: nat, k: nat)
      requires Linked(g) && IsPhi(g, s, k) && RegNum(asg, PhiValue(g[s].phis[k])) == REG_UNKNOWN
      requires MovedUpTo(now, s, k)
      ensures MovedUpTo(now, s, k + 1)
    {
      hide Linked;
    }

    lemma PhiAppended(was: seq<seq<Move>>, now: seq<seq<Move>>, s: nat, k: nat)
      requires Linked(g) && IsPhi(g, s, k) && |g[s].phis[k].opnds| == |g[s].preds|
      requires RegNum(asg, PhiValue(g[s].phis[k])) != REG_UNKNOWN && Appended(was, now, s, k, |g[s].preds|)
      requires MovedUpTo(was, s, k)
      ensures MovedUpTo(now, s, k + 1)
    {
      hide Linked, OperandMoves;
    }

    /** Fails where an assertion of the source does; otherwise every block has got its moves, in order. */
    method Run() returns (ok: bool)
      requires Linked(g) && moves == seq(|g|, _ => [])
      modifies this`moves
      ensures ok <==> (forall v :: v in values ==> FirstResult(g, v)) && OperandsHeld(g, asg)
      ensures ok ==> |moves| == |g| && forall b: nat :: b < |g| ==> moves[b] == MovesInto(g, asg, b, |g|)
    {
      hide FirstResult, RegNum, PhiMoves, Linked, OperandsHeld, HeldUpTo, HeldAt, MovedUpTo, MovesInto, BlockMoves;
      HeldNone();
      NoneMoved();
      ok := RewriteDefs();
      if !ok {
        return;
      }
      for s := 0 to |g|
        invariant MovedUpTo(moves, s, 0) && HeldUpTo(s, 0)
      {
        for k := 0 to Visited(g[s])
          invariant MovedUpTo(moves, s, k) && HeldUpTo(s, k)
        {
          ok := RewritePhi(s, k);
          HeldNext(s, k);
          if !ok {
            return;
          }
        }
        BlockMoved(s);
      }
      HeldAll();
      AllMoved();
      ok := true;
    }

    lemma NoneMoved()
      requires Linked(g) && moves == seq(|g|, _ => [])
      ensures MovedUpTo(moves, 0, 0)
    {
      hide Linked;
    }

    lemma AllMoved()
      requires Linked(g) && MovedUpTo(moves, |g|, 0)
      ensures |moves| == |g| && forall b: nat :: b < |g| ==> moves[b] == MovesInto(g, asg, b, |g|)
    {
      hide Linked;
    }

    /** The operands of the phis before phi `k` of block `s` have their registers. */
    ghost predicate HeldUpTo(s: nat, k: nat) {
      forall c: nat, j: nat :: c < |g| && j < Visited(g[c]) && (c < s || (c == s && j < k)) ==>
        HeldAt(g, asg, c, j, |g[c].phis[j].opnds|)
    }

    lemma HeldNone()
      ensures HeldUpTo(0, 0)
    {
    }

    lemma HeldNext(s: nat, k: nat)
      requires s < |g| && k < Visited(g[s]) && HeldUpTo(s, k)
      ensures if HeldAt(g, asg, s, k, |g[s].phis[k].opnds|) then HeldUpTo(s, k + 1) else !OperandsHeld(g, asg)
    {
    }

    lemma HeldAll()
      ensures HeldUpTo(|g|, 0) <==> OperandsHeld(g, asg)
    {
      if HeldUpTo(|g|, 0) {
        forall s: nat, k: nat | s < |g| && k < Visited(g[s]) ensures HeldAt(g, asg, s, k, |g[s].phis[k].opnds|) {
        }
      }
    }

    lemma BlockMoved(s: nat)
      requires s < |g| && Linked(g) && MovedUpTo(moves, s, Visited(g[s])) && HeldUpTo(s, Visited(g[s]))
      ensures MovedUpTo(moves, s + 1, 0) && HeldUpTo(s + 1, 0)
    {
    }
  }
}
