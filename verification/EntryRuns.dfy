/**
  The emitted moves and the runs from the entry.  A wrong move reads another
  live value; that is lost on some run unless the two values are always equal.
 */
module EntryRuns {
  import opened Basics
  import opened LiveIntervals
  import opened Liveness
  import opened Execution
  import opened Moves
  import opened Rewriting
  import opened Emission

  /** On the edge from `b` to `s` the register of `v` ends up with the value of `u` where that of `w` is wanted. */
  ghost predicate Mixes(g: Cfg, asg: Assignment, b: nat, s: nat, ms: seq<Move>, v: Value, w: Value, u: Value) {
    && b < |g| && s < |g| && s in g[b].succs && Live(g, v, s, 0) && Wants(g, b, s, v, w)
    && Live(g, w, b, |g[b].ops|) && Live(g, u, b, |g[b].ops|) && Source(ms, RegOf(asg, v)) == RegOf(asg, u)
  }

  /** A run that comes to such an edge with different values. */
  lemma RunLoses(g: Cfg, asg: Assignment, moves: seq<seq<Move>>, path: seq<Pt>, ops: Ops, b: nat, s: nat,
                 v: Value, w: Value, u: Value)
    requires UniqueIds(g) && b < |moves| && Mixes(g, asg, b, s, moves[b], v, w, u)
    requires IsRun(g, path) && path[|path| - 1] == Pt(b, |g[b].ops|)
    requires var env := RunPregs(g, path, map[], ops); w in env && u in env && env[w] != env[u]
    ensures !Refines(g, asg, Code(moves))
  {
    hide Live, Wants, UniqueIds, EdgePregs, Source, StepPregs, StepRegs;
    var regs: RegState := map[];
    var env, held := RunPregs(g, path, map[], ops), RunRegs(g, path, asg, regs, ops, Code(moves));
    if Agree(g, b, |g[b].ops|, env, asg, held) {
      var on := path + [Pt(s, 0)];
      assert on[..|path|] == path && IsRun(g, on) by {
        assert forall i :: 0 <= i < |path| ==> on[i] == path[i];
      }
      WantedValue(g, b, s, env, v, w);
      RunIs(moves[b], held, RegOf(asg, v));
      assert !Agree(g, s, 0, RunPregs(g, on, map[], ops), asg, RunRegs(g, on, asg, regs, ops, Code(moves)));
    }
  }

  // ----- no move is missing -----------------------------------------------------------------

  /** Every phi is visited, and its operands are of the class of its result. */
  ghost predicate PhisMovable(g: Cfg) {
    forall s: nat, k: nat, i: nat | IsPhi(g, s, k) && i < |g[s].phis[k].opnds| ::
      g[s].ops != [] && g[s].phis[k].opnds[i].cls == g[s].phis[k].cls
  }

  lemma {:induction false} OperandMoved(g: Cfg, asg: Assignment, b: nat, s: nat, k: nat, n: nat, i: nat)
    requires IsPhi(g, s, k) && i < n <= |g[s].phis[k].opnds| && n <= |g[s].preds| && g[s].preds[i] == b
    ensures var res, opnd := PhiValue(g[s].phis[k]), g[s].phis[k].opnds[i];
            RegNum(asg, opnd) != RegNum(asg, res) ==>
              Move(RegOf(asg, res), RegOf(asg, opnd)) in OperandMoves(g, asg, b, s, k, n)
  {
    if i < n - 1 {
      OperandMoved(g, asg, b, s, k, n - 1, i);
    }
  }

  lemma {:induction false} BlockMoved(g: Cfg, asg: Assignment, b: nat, s: nat, n: nat, k: nat, m: Move)
    requires Linked(g) && s < |g| && k < n <= |g[s].phis| && m in PhiMoves(g, asg, b, s, k)
    ensures m in BlockMoves(g, asg, b, s, n)
  {
    hide PhiMoves;
    if k < n - 1 {
      BlockMoved(g, asg, b, s, n - 1, k, m);
    }
  }

  lemma {:induction false} IntoMoved(g: Cfg, asg: Assignment, b: nat, n: nat, s: nat, m: Move)
    requires Linked(g) && s < n <= |g| && m in BlockMoves(g, asg, b, s, Visited(g[s]))
    ensures m in MovesInto(g, asg, b, n)
  {
    hide BlockMoves;
    if s < n - 1 {
      IntoMoved(g, asg, b, n - 1, s, m);
    }
  }

  /** Moves are emitted exactly for operands in another register, unless the phi is the last instruction. */
  lemma MovesExactly(g: Cfg, asg: Assignment, b: nat, m: Move)
    requires Linked(g)
    ensures m in MovesInto(g, asg, b, |g|) <==>
            exists s: nat, k: nat, i: nat ::
              MovesPhi(g, asg, b, m, s, k, i) && (g[s].ops != [] || k < |g[s].phis| - 1)
  {
    hide Linked, RegNum, RegOf, MovesInto, BlockMoves, OperandMoves;
    if m in MovesInto(g, asg, b, |g|) {
      var s, k, i := MoveOrigin(g, asg, b, |g|, m);
    }
    if s: nat, k: nat, i: nat :| MovesPhi(g, asg, b, m, s, k, i) && (g[s].ops != [] || k < |g[s].phis| - 1) {
      PhiShape(g, s, k);
      OperandMoved(g, asg, b, s, k, |g[s].preds|, i);
      BlockMoved(g, asg, b, s, Visited(g[s]), k, m);
      IntoMoved(g, asg, b, |g|, s, m);
    }
  }

  lemma NoneMissing(g: Cfg, asg: Assignment, b: nat)
    requires Linked(g) && PhisMovable(g) && b < |g|
    requires Separates(g, asg) && forall v :: v in asg ==> asg[v] != REG_UNKNOWN
    ensures Covered(g, asg, b, MovesInto(g, asg, b, |g|))
  {
    hide Live, IsChi;
    forall s: nat, k: nat, o | s in g[b].succs && IsPhi(g, s, k) && EdgeOpnd(g, b, s, k) == Some(o)
                               && Live(g, PhiValue(g[s].phis[k]), s, 0)
      ensures var r := RegOf(asg, PhiValue(g[s].phis[k]));
              r == RegOf(asg, o) || Move(r, RegOf(asg, o)) in MovesInto(g, asg, b, |g|)
    {
      var res, i := PhiValue(g[s].phis[k]), Pos(g[s].preds, b);
      assert b in g[s].preds;
      PhiShape(g, s, k);
      assert Occupied(g, res, s, 0);
      if RegNum(asg, o) != RegNum(asg, res) {
        var m := Move(RegOf(asg, res), RegOf(asg, o));
        OperandMoved(g, asg, b, s, k, |g[s].preds|, i);
        BlockMoved(g, asg, b, s, |g[s].phis|, k, m);
        IntoMoved(g, asg, b, |g|, s, m);
      }
    }
  }

  // ----- a wrong register holds another live value -------------------------------------------

  lemma {:induction false} SourceRead(ms: seq<Move>, m: Move) returns (n: Move)
    requires m in ms
    ensures n in ms && n.src == Source(ms, m.dst)
  {
    var rest := ms[1..];
    assert ms[0] in ms && forall l :: l in rest ==> l in ms;
    if Source(rest, m.dst) == ms[0].dst {
      n := ms[0];
    } else if l :| l in rest && l.dst == m.dst {
      n := SourceRead(rest, l);
    } else {
      Untouched(rest, m.dst);
      assert false;
    }
  }

  lemma UnmovedRight(g: Cfg, asg: Assignment, b: nat, s: nat, ms: seq<Move>, v: Value, w: Value)
    requires b < |g| && Covered(g, asg, b, ms) && forall m :: m in ms ==> m.dst != RegOf(asg, v)
    requires s in g[b].succs && s < |g| && Live(g, v, s, 0) && Wants(g, b, s, v, w)
    ensures Source(ms, RegOf(asg, v)) == RegOf(asg, w)
  {
    hide Live, EdgeOpnd, Source;
    Untouched(ms, RegOf(asg, v));
    if k: nat :| k < |g[s].phis| && PhiValue(g[s].phis[k]) == v && EdgeOpnd(g, b, s, k) == Some(w) {
      assert IsPhi(g, s, k);
    }
  }

  lemma WrongMixes(g: Cfg, asg: Assignment, b: nat) returns (s: nat, v: Value, w: Value, u: Value)
    requires WellFormed(g) && Strict(g) && OnlyNeeded(g, asg) && ProperPhis(g) && b < |g|
    requires var ms := MovesInto(g, asg, b, |g|); Covered(g, asg, b, ms) && !MovesRight(g, asg, b, ms)
    ensures Mixes(g, asg, b, s, MovesInto(g, asg, b, |g|), v, w, u) && u != w
    ensures s < |g| && Live(g, w, b, |g[b].ops|) && Live(g, u, b, |g[b].ops|)
  {
    hide Live, Strict, OnlyNeeded, ProperPhis, MovesInto, UniqueIds, Forward, Source, EdgeOpnd;
    var ms := MovesInto(g, asg, b, |g|);
    s, v, w :| s in g[b].succs && s < |g| && Live(g, v, s, 0) && Wants(g, b, s, v, w)
               && Source(ms, RegOf(asg, v)) != RegOf(asg, w);
    WantedLive(g, b, s, v, w);
    var r := RegOf(asg, v);
    if m :| m in ms && m.dst == r {
      var n := SourceRead(ms, m);
      var s', v';
      s', v', u := MoveWanted(g, asg, b, n);
      WantedLive(g, b, s', v', u);
    } else {
      UnmovedRight(g, asg, b, s, ms, v, w);
      assert false;
    }
  }

  // ----- whole graphs ---------------------------------------------------------------------------

  /** Some run comes to the end of `b` with different `v` and `w`. */
  ghost predicate ToldApart(g: Cfg, b: nat, v: Value, w: Value)
    requires b < |g|
  {
    exists path: seq<Pt>, ops: Ops :: IsRun(g, path) && path[|path| - 1] == Pt(b, |g[b].ops|)
      && var env := RunPregs(g, path, map[], ops); v in env && w in env && env[v] != env[w]
  }

  /** No two values live at the end of a block are always equal. */
  ghost predicate NoTwins(g: Cfg) {
    forall b: nat, v, w | b < |g| && Live(g, v, b, |g[b].ops|) && Live(g, w, b, |g[b].ops|) && v != w ::
      ToldApart(g, b, v, w)
  }

  /** No move overwrites what a later one reads, none replaces a value that goes another way. */
  ghost predicate NoneInTheWay(g: Cfg, asg: Assignment, moves: seq<seq<Move>>) {
    |moves| == |g| && forall b: nat :: b < |g| ==> InOrder(moves[b]) && NoClobber(g, asg, b, moves[b])
  }

  lemma WrongLoses(g: Cfg, asg: Assignment, moves: seq<seq<Move>>, b: nat)
    requires WellFormed(g) && Strict(g) && OnlyNeeded(g, asg) && ProperPhis(g) && NoTwins(g)
    requires b < |g| && Emitted(g, asg, moves) && Covered(g, asg, b, moves[b]) && !MovesRight(g, asg, b, moves[b])
    ensures !Refines(g, asg, Code(moves))
  {
    hide Live, Strict, OnlyNeeded, ProperPhis, Linked, Forward, UniqueIds, Covered, MovesRight, Mixes, Refines,
         RunPregs, MovesInto;
    var s, v, w, u := WrongMixes(g, asg, b);
    assert ToldApart(g, b, w, u);
    var path: seq<Pt>, ops: Ops :| IsRun(g, path) && path[|path| - 1] == Pt(b, |g[b].ops|)
      && var env := RunPregs(g, path, map[], ops); w in env && u in env && env[w] != env[u];
    RunLoses(g, asg, moves, path, ops, b, s, v, w, u);
  }

  /**
    From the entry: on proper phis of one class each, in a graph where no two
    live values are always equal, the emitted form refines the original exactly
    when no move is in the way of another or of a value.
   */
  lemma RefinesIff(g: Cfg, asg: Assignment, moves: seq<seq<Move>>)
    requires WellFormed(g) && Strict(g) && Separates(g, asg) && OnlyNeeded(g, asg) && Emitted(g, asg, moves)
    requires ProperPhis(g) && PhisMovable(g) && NoTwins(g) && forall v :: v in asg ==> asg[v] != REG_UNKNOWN
    ensures Refines(g, asg, Code(moves)) <==> NoneInTheWay(g, asg, moves)
  {
    hide Live, Strict, Separates, OnlyNeeded, ProperPhis, PhisMovable, NoTwins, Linked, Forward, UniqueIds, Simulates,
         Refines, Covered, InOrder, NoClobber, MovesRight, MovesInto;
    forall b: nat | b < |g| ensures Covered(g, asg, b, moves[b]) {
      NoneMissing(g, asg, b);
    }
    AllSafeIff(g, asg, moves);
    if AllSafe(g, asg, moves) {
      EmittedIff(g, asg, moves);
      SimulationRefines(g, asg, Code(moves));
    } else {
      assert !AllRight(g, asg, moves);
      var b: nat :| b < |g| && !MovesRight(g, asg, b, moves[b]);
      WrongLoses(g, asg, moves, b);
    }
  }
}
