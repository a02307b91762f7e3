/**
  Whether the moves a rewriter appends to the blocks do what the phis mean.
  They are executed one after the other at the end of a block, whichever edge
  is taken: exactly when they can get in each other's way is said here.
 */
module Emission {
  import opened Basics
  import opened LiveIntervals
  import opened Liveness
  import opened Execution
  import opened Moves
  import opened Rewriting

  /** The appended moves as code on the edges out of each block. */
  function Code(moves: seq<seq<Move>>): EdgeCode {
    (b: nat, s: nat, regs: RegState) => if b < |moves| then RunMoves(moves[b], regs) else regs
  }

  /** On the edge from `b` to `s`, `v` takes the value of `w`. */
  ghost predicate Wants(g: Cfg, b: nat, s: nat, v: Value, w: Value)
    requires s < |g|
  {
    || (exists k: nat :: k < |g[s].phis| && PhiValue(g[s].phis[k]) == v && EdgeOpnd(g, b, s, k) == Some(w))
    || (v == w && forall k: nat :: k < |g[s].phis| ==> PhiValue(g[s].phis[k]) != v)
  }

  lemma {:induction false} EdgeValue(g: Cfg, b: nat, s: nat, n: nat, env: PregState, v: Value, k: nat)
    requires UniqueIds(g) && s < |g| && k < |g[s].phis| && n <= |g[s].phis| && PhiValue(g[s].phis[k]) == v
    ensures var e, o := EdgePregs(g, b, s, n, env), EdgeOpnd(g, b, s, k);
            if k < n then (v in e <==> o.Some? && o.value in env) && (v in e ==> e[v] == env[o.value])
            else (v in e <==> v in env) && (v in e ==> e[v] == env[v])
  {
    if n > 0 {
      EdgeValue(g, b, s, n - 1, env, v, k);
      assert IsPhi(g, s, n - 1) && IsPhi(g, s, k);
      assert PhiValue(g[s].phis[n - 1]) == v ==> n - 1 == k;
    }
  }

  lemma {:induction false} PassesEdge(g: Cfg, b: nat, s: nat, n: nat, env: PregState, v: Value)
    requires s < |g| && n <= |g[s].phis| && forall k: nat :: k < |g[s].phis| ==> PhiValue(g[s].phis[k]) != v
    ensures var e := EdgePregs(g, b, s, n, env); (v in e <==> v in env) && (v in e ==> e[v] == env[v])
  {
    if n > 0 {
      PassesEdge(g, b, s, n - 1, env, v);
    }
  }

  /** The value behind an edge is the wanted one. */
  lemma WantedValue(g: Cfg, b: nat, s: nat, env: PregState, v: Value, w: Value)
    requires UniqueIds(g) && s < |g| && Wants(g, b, s, v, w)
    ensures var e := EdgePregs(g, b, s, |g[s].phis|, env); (v in e <==> w in env) && (v in e ==> e[v] == env[w])
  {
    hide UniqueIds, EdgePregs, EdgeOpnd;
    if k: nat :| k < |g[s].phis| && PhiValue(g[s].phis[k]) == v && EdgeOpnd(g, b, s, k) == Some(w) {
      EdgeValue(g, b, s, |g[s].phis|, env, v, k);
    } else {
      PassesEdge(g, b, s, |g[s].phis|, env, v);
    }
  }

  /** What a phi without a defined operand leaves has no value. */
  lemma SomethingWanted(g: Cfg, b: nat, s: nat, env: PregState, v: Value) returns (w: Value)
    requires UniqueIds(g) && s < |g| && v in EdgePregs(g, b, s, |g[s].phis|, env)
    ensures Wants(g, b, s, v, w)
  {
    hide UniqueIds, EdgePregs, EdgeOpnd;
    if k: nat :| k < |g[s].phis| && PhiValue(g[s].phis[k]) == v {
      EdgeValue(g, b, s, |g[s].phis|, env, v, k);
      w := EdgeOpnd(g, b, s, k).value;
    } else {
      w := v;
    }
  }

  /** The wanted value is live at the end of the block. */
  lemma WantedLive(g: Cfg, b: nat, s: nat, v: Value, w: Value)
    requires Linked(g) && b < |g| && s < |g| && s in g[b].succs && Live(g, v, s, 0) && Wants(g, b, s, v, w)
    ensures Live(g, w, b, |g[b].ops|)
  {
    hide Live, Linked, IsChi;
    if k: nat :| k < |g[s].phis| && PhiValue(g[s].phis[k]) == v && EdgeOpnd(g, b, s, k) == Some(w) {
      assert w in PhiUses(g, b, s);
    }
    assert LiveOnEdge(g, w, b, s);
    LiveOverEdges(g, w, b);
  }

  // ----- right moves ------------------------------------------------------------

  /** Behind the moves every live register holds what its value wants, on every edge out of `b`. */
  ghost predicate MovesRight(g: Cfg, asg: Assignment, b: nat, ms: seq<Move>)
    requires b < |g|
  {
    forall s: nat, v, w | s in g[b].succs && s < |g| && Live(g, v, s, 0) && Wants(g, b, s, v, w) ::
      Source(ms, RegOf(asg, v)) == RegOf(asg, w)
  }

  /** Agreement is kept on every edge out of `b`. */
  ghost predicate BlockAgrees(g: Cfg, asg: Assignment, b: nat, ms: seq<Move>)
    requires b < |g|
  {
    forall s: nat, env, regs | s in g[b].succs && s < |g| && Agree(g, b, |g[b].ops|, env, asg, regs) ::
      Agree(g, s, 0, EdgePregs(g, b, s, |g[s].phis|, env), asg, RunMoves(ms, regs))
  }

  lemma RightAgrees(g: Cfg, asg: Assignment, b: nat, ms: seq<Move>)
    requires WellFormed(g) && b < |g| && MovesRight(g, asg, b, ms)
    ensures BlockAgrees(g, asg, b, ms)
  {
    hide Live, Wants, EdgePregs, RunMoves, Source;
    forall s: nat, env, regs | s in g[b].succs && s < |g| && Agree(g, b, |g[b].ops|, env, asg, regs)
      ensures Agree(g, s, 0, EdgePregs(g, b, s, |g[s].phis|, env), asg, RunMoves(ms, regs))
    {
      var env' := EdgePregs(g, b, s, |g[s].phis|, env);
      forall v | Live(g, v, s, 0) && v in env' ensures ReadReg(RunMoves(ms, regs), RegOf(asg, v)) == env'[v] {
        var w := SomethingWanted(g, b, s, env, v);
        WantedValue(g, b, s, env, v, w);
        WantedLive(g, b, s, v, w);
        RunIs(ms, regs, RegOf(asg, v));
      }
    }
  }

  /** Where they are not right, two register states tell. */
  lemma AgreesRight(g: Cfg, asg: Assignment, b: nat, ms: seq<Move>)
    requires WellFormed(g) && b < |g| && BlockAgrees(g, asg, b, ms)
    ensures MovesRight(g, asg, b, ms)
  {
    hide Live, Wants, EdgePregs, RunMoves, Source;
    forall s: nat, v, w | s in g[b].succs && s < |g| && Live(g, v, s, 0) && Wants(g, b, s, v, w)
      ensures Source(ms, RegOf(asg, v)) == RegOf(asg, w)
    {
      var env: PregState, regs: RegState := map[w := 1], map[RegOf(asg, w) := 1];
      assert Agree(g, b, |g[b].ops|, env, asg, regs);
      var env' := EdgePregs(g, b, s, |g[s].phis|, env);
      assert Agree(g, s, 0, env', asg, RunMoves(ms, regs));
      WantedValue(g, b, s, env, v, w);
      RunIs(ms, regs, RegOf(asg, v));
    }
  }

  // ----- in terms of the moves ---------------------------------------------------

  /** Every live phi result has its move, or needs none. */
  ghost predicate Covered(g: Cfg, asg: Assignment, b: nat, ms: seq<Move>)
    requires b < |g|
  {
    forall s: nat, k: nat, o | s in g[b].succs && IsPhi(g, s, k) && EdgeOpnd(g, b, s, k) == Some(o)
                               && Live(g, PhiValue(g[s].phis[k]), s, 0) ::
      var r := RegOf(asg, PhiValue(g[s].phis[k])); r == RegOf(asg, o) || Move(r, RegOf(asg, o)) in ms
  }

  /** The target of a move holds nothing that is live into a successor, unless the same move is meant for it. */
  ghost predicate NoClobber(g: Cfg, asg: Assignment, b: nat, ms: seq<Move>)
    requires b < |g|
  {
    forall m, s: nat, v, w | m in ms && s in g[b].succs && s < |g| && Live(g, v, s, 0) && Wants(g, b, s, v, w) ::
      RegOf(asg, v) == m.dst ==> RegOf(asg, w) == m.src
  }

  /** No move overwrites what a later one reads, none replaces a value that goes another way, none is missing. */
  ghost predicate Safe(g: Cfg, asg: Assignment, b: nat, ms: seq<Move>)
    requires b < |g|
  {
    InOrder(ms) && NoClobber(g, asg, b, ms) && Covered(g, asg, b, ms)
  }

  lemma SafeRight(g: Cfg, asg: Assignment, b: nat, ms: seq<Move>)
    requires b < |g| && Safe(g, asg, b, ms)
    ensures MovesRight(g, asg, b, ms)
  {
    hide Live, InOrder, EdgeOpnd;
    forall s: nat, v, w | s in g[b].succs && s < |g| && Live(g, v, s, 0) && Wants(g, b, s, v, w)
      ensures Source(ms, RegOf(asg, v)) == RegOf(asg, w)
    {
      var r := RegOf(asg, v);
      if m :| m in ms && m.dst == r {
        Delivers(ms, m);
      } else {
        Untouched(ms, r);
        if k: nat :| k < |g[s].phis| && PhiValue(g[s].phis[k]) == v && EdgeOpnd(g, b, s, k) == Some(w) {
          assert IsPhi(g, s, k);
        }
      }
    }
  }

  // ----- the moves the rewriter appends --------------------------------------------

  /** Where a move comes from: operand `i` of phi `k` of block `s`. */
  ghost predicate MovesPhi(g: Cfg, asg: Assignment, b: nat, m: Move, s: nat, k: nat, i: nat)
    requires Linked(g)
  {
    && IsPhi(g, s, k) && i < |g[s].phis[k].opnds| && i < |g[s].preds| && g[s].preds[i] == b
    && var res, opnd := PhiValue(g[s].phis[k]), g[s].phis[k].opnds[i];
       RegNum(asg, res) != REG_UNKNOWN && RegNum(asg, opnd) != RegNum(asg, res)
       && m == Move(RegOf(asg, res), RegOf(asg, opnd))
  }

  lemma {:induction false} OperandOrigin(g: Cfg, asg: Assignment, b: nat, s: nat, k: nat, n: nat, m: Move)
    returns (i: nat)
    requires Linked(g) && IsPhi(g, s, k) && n <= |g[s].phis[k].opnds| && n <= |g[s].preds|
    requires RegNum(asg, PhiValue(g[s].phis[k])) != REG_UNKNOWN && m in OperandMoves(g, asg, b, s, k, n)
    ensures MovesPhi(g, asg, b, m, s, k, i)
  {
    if m in OperandMoves(g, asg, b, s, k, n - 1) {
      i := OperandOrigin(g, asg, b, s, k, n - 1, m);
    } else {
      i := n - 1;
    }
  }

  lemma {:induction false} BlockOrigin(g: Cfg, asg: Assignment, b: nat, s: nat, n: nat, m: Move)
    returns (k: nat, i: nat)
    requires Linked(g) && s < |g| && n <= |g[s].phis| && m in BlockMoves(g, asg, b, s, n)
    ensures MovesPhi(g, asg, b, m, s, k, i) && k < n
  {
    if m in BlockMoves(g, asg, b, s, n - 1) {
      k, i := BlockOrigin(g, asg, b, s, n - 1, m);
    } else {
      k := n - 1;
      PhiShape(g, s, k);
      i := OperandOrigin(g, asg, b, s, k, |g[s].preds|, m);
    }
  }

  lemma {:induction false} MoveOrigin(g: Cfg, asg: Assignment, b: nat, n: nat, m: Move) returns (s: nat, k: nat, i: nat)
    requires Linked(g) && n <= |g| && m in MovesInto(g, asg, b, n)
    ensures MovesPhi(g, asg, b, m, s, k, i) && k < Visited(g[s])
  {
    if m in MovesInto(g, asg, b, n - 1) {
      s, k, i := MoveOrigin(g, asg, b, n - 1, m);
    } else {
      s := n - 1;
      k, i := BlockOrigin(g, asg, b, s, Visited(g[s]), m);
    }
  }

  /** A block is a predecessor once, and a phi reads nothing that the function does not define. */
  ghost predicate ProperPhis(g: Cfg) {
    forall s: nat, k: nat :: IsPhi(g, s, k) ==>
      NoDup(g[s].preds) && forall i :: 0 <= i < |g[s].phis[k].opnds| ==> !IsChi(g, g[s].phis[k].opnds[i].def)
  }

  /** A move is for a live phi result and brings what that wants. */
  lemma MoveWanted(g: Cfg, asg: Assignment, b: nat, m: Move) returns (s: nat, v: Value, w: Value)
    requires WellFormed(g) && Strict(g) && OnlyNeeded(g, asg) && ProperPhis(g) && b < |g| &&
             m in MovesInto(g, asg, b, |g|)
    ensures s in g[b].succs && s < |g| && Live(g, v, s, 0) && Wants(g, b, s, v, w)
    ensures m == Move(RegOf(asg, v), RegOf(asg, w)) && m.dst != m.src
  {
    hide Live, IsChi, UniqueIds, OnlyNeeded;
    var k, i;
    s, k, i := MoveOrigin(g, asg, b, |g|, m);
    v, w := PhiValue(g[s].phis[k]), g[s].phis[k].opnds[i];
    assert b in g[s].preds && s in g[b].succs;
    assert Pos(g[s].preds, b) == i;
    assert EdgeOpnd(g, b, s, k) == Some(w);
    PhiNeeded(g, s, k, asg);
  }

  /** On proper phis the moves are right exactly when they are safe. */
  lemma SafeIff(g: Cfg, asg: Assignment, b: nat)
    requires WellFormed(g) && Strict(g) && OnlyNeeded(g, asg) && ProperPhis(g) && b < |g|
    ensures var ms := MovesInto(g, asg, b, |g|); MovesRight(g, asg, b, ms) <==> Safe(g, asg, b, ms)
  {
    var ms := MovesInto(g, asg, b, |g|);
    if Safe(g, asg, b, ms) {
      SafeRight(g, asg, b, ms);
    }
    if MovesRight(g, asg, b, ms) {
      hide Live, WellFormed, Strict, OnlyNeeded, ProperPhis, InOrder, MovesInto;
      forall m | m in ms ensures Source(ms, m.dst) == m.src && m.dst != m.src {
        var s, v, w := MoveWanted(g, asg, b, m);
      }
      DeliveredIff(ms);
      RightCovered(g, asg, b, ms);
    }
  }

  lemma RightCovered(g: Cfg, asg: Assignment, b: nat, ms: seq<Move>)
    requires b < |g| && MovesRight(g, asg, b, ms) && AllDelivered(ms)
    ensures Covered(g, asg, b, ms)
  {
    hide Live, EdgeOpnd, Source;
    forall s: nat, k: nat, o | s in g[b].succs && IsPhi(g, s, k) && EdgeOpnd(g, b, s, k) == Some(o)
                               && Live(g, PhiValue(g[s].phis[k]), s, 0)
      ensures var r := RegOf(asg, PhiValue(g[s].phis[k])); r == RegOf(asg, o) || Move(r, RegOf(asg, o)) in ms
    {
      var v := PhiValue(g[s].phis[k]);
      var r := RegOf(asg, v);
      assert Wants(g, b, s, v, o);
      if m :| m in ms && m.dst == r {
        assert m == Move(r, RegOf(asg, o));
      } else {
        Untouched(ms, r);
      }
    }
  }

  // ----- whole graphs --------------------------------------------------------------

  /** The rewriter's moves. */
  ghost predicate Emitted(g: Cfg, asg: Assignment, moves: seq<seq<Move>>)
    requires Linked(g)
  {
    |moves| == |g| && forall b: nat :: b < |g| ==> moves[b] == MovesInto(g, asg, b, |g|)
  }

  ghost predicate AllRight(g: Cfg, asg: Assignment, moves: seq<seq<Move>>) {
    |moves| == |g| && forall b: nat :: b < |g| ==> MovesRight(g, asg, b, moves[b])
  }

  ghost predicate AllSafe(g: Cfg, asg: Assignment, moves: seq<seq<Move>>) {
    |moves| == |g| && forall b: nat :: b < |g| ==> Safe(g, asg, b, moves[b])
  }

  lemma EdgesIff(g: Cfg, asg: Assignment, moves: seq<seq<Move>>)
    requires WellFormed(g) && |moves| == |g|
    ensures EdgesAgree(g, asg, Code(moves)) <==> AllRight(g, asg, moves)
  {
    hide WellFormed, Agree, EdgePregs, MovesRight;
    if AllRight(g, asg, moves) {
      forall b: nat, s: nat, env, regs | b < |g| && s in g[b].succs && s < |g|
                                     && Agree(g, b, |g[b].ops|, env, asg, regs)
        ensures Agree(g, s, 0, EdgePregs(g, b, s, |g[s].phis|, env), asg, Code(moves)(b, s, regs))
      {
        RightAgrees(g, asg, b, moves[b]);
      }
    }
    if EdgesAgree(g, asg, Code(moves)) {
      forall b: nat | b < |g| ensures MovesRight(g, asg, b, moves[b]) {
        forall s: nat, env, regs | s in g[b].succs && s < |g| && Agree(g, b, |g[b].ops|, env, asg, regs)
          ensures Agree(g, s, 0, EdgePregs(g, b, s, |g[s].phis|, env), asg, RunMoves(moves[b], regs))
        {
          EdgeAt(g, b, s, env, asg, regs, Code(moves));
        }
        AgreesRight(g, asg, b, moves[b]);
      }
    }
  }

  /** From every state, along every path: the emitted form keeps all values exactly when its moves are right. */
  lemma EmittedIff(g: Cfg, asg: Assignment, moves: seq<seq<Move>>)
    requires WellFormed(g) && Separates(g, asg) && |moves| == |g|
    ensures Simulates(g, asg, Code(moves)) <==> AllRight(g, asg, moves)
  {
    hide Separates, EdgesAgree, Simulates, AllRight;
    EdgesIff(g, asg, moves);
    SimulatesIff(g, asg, Code(moves));
  }

  lemma AllSafeIff(g: Cfg, asg: Assignment, moves: seq<seq<Move>>)
    requires WellFormed(g) && Strict(g) && OnlyNeeded(g, asg) && Emitted(g, asg, moves)
    ensures AllSafe(g, asg, moves) ==> AllRight(g, asg, moves)
    ensures ProperPhis(g) && AllRight(g, asg, moves) ==> AllSafe(g, asg, moves)
  {
    hide WellFormed, Strict, OnlyNeeded, ProperPhis, Safe, MovesRight;
    forall b: nat | b < |g|
      ensures Safe(g, asg, b, moves[b]) ==> MovesRight(g, asg, b, moves[b])
      ensures ProperPhis(g) && MovesRight(g, asg, b, moves[b]) ==> Safe(g, asg, b, moves[b])
    {
      if Safe(g, asg, b, moves[b]) {
        SafeRight(g, asg, b, moves[b]);
      }
      if ProperPhis(g) {
        SafeIff(g, asg, b);
      }
    }
  }
}
