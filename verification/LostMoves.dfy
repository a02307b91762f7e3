/**
  Graphs on which the emitted moves lose a value, although every value has a
  register of its own wherever it is occupied.
 */
module LostMoves {
  import opened Basics
  import opened LiveIntervals
  import opened Liveness
  import opened Execution
  import opened Moves
  import opened Rewriting
  import opened Emission
  import opened EntryRuns

  // ----- small graphs -----------------------------------------------------------------

  function Def(id: nat, preg: nat, uses: seq<Value>): Op {
    Op(id, [PregRes(preg, 0)], seq(|uses|, i requires 0 <= i < |uses| => PregOpnd(uses[i])))
  }

  function Use(id: nat, v: Value): Op {
    Op(id, [], [PregOpnd(v)])
  }

  lemma DefIs(id: nat, preg: nat, uses: seq<Value>)
    ensures Defs(Def(id, preg, uses)) == {Value(preg, id, 0)} &&
            forall v :: v in Uses(Def(id, preg, uses)) <==> v in uses
  {
    var op := Def(id, preg, uses);
    assert op.res[0] == PregRes(preg, 0);
    forall v | v in uses ensures v in Uses(op) {
      var i :| 0 <= i < |uses| && uses[i] == v;
      assert op.opnds[i] == PregOpnd(v);
    }
  }

  lemma UseIs(id: nat, v: Value)
    ensures Defs(Use(id, v)) == {} && Uses(Use(id, v)) == {v}
  {
    assert Use(id, v).opnds[0] == PregOpnd(v);
  }

  lemma FirstOfDef(g: Cfg, v: Value, b: nat, k: nat, uses: seq<Value>)
    requires IsOp(g, b, k) && v.cls == 0 && g[b].ops[k] == Def(v.def, v.preg, uses)
    ensures FirstResult(g, v)
  {
  }

  lemma FirstOfPhi(g: Cfg, v: Value, b: nat, k: nat)
    requires IsPhi(g, b, k) && PhiValue(g[b].phis[k]) == v
    ensures FirstResult(g, v)
  {
  }

  function Dec(n: nat, k: nat): nat {
    if k <= n then n - k else 0
  }

  /** Identifiers are unique when they tell what they name. */
  lemma Named(g: Cfg, ops: nat -> Pt, phis: nat -> Pt)
    requires forall b: nat, k: nat :: IsOp(g, b, k) ==>
               ops(g[b].ops[k].id) == Pt(b, k) && phis(g[b].ops[k].id) == Pt(0, 0)
    requires forall b: nat, k: nat :: IsPhi(g, b, k) ==> phis(g[b].phis[k].id) == Pt(b, k) && b > 0
    requires forall id :: !IsChi(g, id)
    ensures UniqueIds(g)
  {
  }

  predicate Leads(g: Cfg, b: nat, s: nat) {
    b < |g| && s in g[b].succs
  }

  predicate Comes(g: Cfg, b: nat, p: nat) {
    b < |g| && p in g[b].preds
  }

  lemma LinkedBy(g: Cfg)
    requires forall b: nat, s: nat :: Leads(g, b, s) ==> b < s < |g| && Comes(g, s, b)
    requires forall b: nat, p: nat :: Comes(g, b, p) ==> p < |g| && Leads(g, p, b)
    requires forall b: nat, phi :: b < |g| && phi in g[b].phis ==> |phi.opnds| == |g[b].preds|
    ensures Linked(g) && Forward(g)
  {
    forall b, s {:trigger s in g[b].succs} | 0 <= b < |g| && s in g[b].succs ensures b < s < |g| && b in g[s].preds {
      assert Leads(g, b, s);
    }
    forall b, p {:trigger p in g[b].preds} | 0 <= b < |g| && p in g[b].preds ensures p < |g| && b in g[p].succs {
      assert Comes(g, b, p);
    }
  }

  lemma OneEdge(g: Cfg, v: Value, b: nat, s: nat)
    requires Linked(g) && b < |g| && g[b].succs == [s] && s < |g|
    ensures Live(g, v, b, |g[b].ops|) <==> LiveOnEdge(g, v, b, s)
  {
    hide Live, Linked;
    LiveOverEdges(g, v, b);
    assert g[b].succs[0] == s;
  }

  lemma {:induction false} NoPhis(g: Cfg, asg: Assignment, b: nat, n: nat)
    requires Linked(g) && n <= |g| && forall s :: 0 <= s < n ==> g[s].phis == []
    ensures MovesInto(g, asg, b, n) == []
  {
    if n > 0 {
      NoPhis(g, asg, b, n - 1);
    }
  }

  /** A phi that joins two blocks. */
  lemma TwoOperands(g: Cfg, asg: Assignment, b: nat, s: nat, k: nat)
    requires Linked(g) && IsPhi(g, s, k) && |g[s].preds| == 2 && |g[s].phis[k].opnds| == 2
    requires g[s].preds[0] != g[s].preds[1] && RegNum(asg, PhiValue(g[s].phis[k])) != REG_UNKNOWN
    ensures var res, o := PhiValue(g[s].phis[k]), g[s].phis[k].opnds;
            PhiMoves(g, asg, b, s, k) ==
              if b == g[s].preds[0] && RegNum(asg, o[0]) != RegNum(asg, res)
              then [Move(RegOf(asg, res), RegOf(asg, o[0]))]
              else if b == g[s].preds[1] && RegNum(asg, o[1]) != RegNum(asg, res)
              then [Move(RegOf(asg, res), RegOf(asg, o[1]))]
              else []
  {
    assert OperandMoves(g, asg, b, s, k, 0) == [];
    assert |OperandMoves(g, asg, b, s, k, 1)| <= 1;
  }

  /** A definition without operands gives its value the identifier. */
  lemma DefRuns(id: nat, preg: nat, env: PregState)
    ensures var v, e := Value(preg, id, 0), StepPregs(Def(id, preg, []), env, Idents());
            v in e && e[v] == id && forall u :: u in env && u != v ==> u in e && e[u] == env[u]
  {
    var op := Def(id, preg, []);
    assert Args(op, 0) == [];
    assert WritePregs(op, 0, [id], env) == env;
  }

  /** Every instruction gives its identifier. */
  function Idents(): Ops {
    (id: nat, args: seq<int>) => [id]
  }

  // ----- two phis that swap registers -----------------------------------------------------

  const A := Value(0, 1, 0)
  const B := Value(1, 2, 0)
  const C := Value(0, 3, 0)
  const D := Value(1, 4, 0)
  const X := Value(0, 5, 0)
  const Y := Value(1, 6, 0)

  /** A diamond: a, b on one way, c, d on the other; x = phi(a, c) and y = phi(b, d) at the join. */
  const SWAP: Cfg := [
    Block([], [], [], [], [1, 2]),
    Block([], [], [Def(1, 0, []), Def(2, 1, [])], [0], [3]),
    Block([], [], [Def(3, 0, []), Def(4, 1, [])], [0], [3]),
    Block([], [Phi(5, 0, 0, [A, C]), Phi(6, 1, 0, [B, D])], [Use(7, Y), Use(8, X)], [1, 2], [])
  ]

  const SWAPPED: Assignment := map[A := 0, B := 1, C := 0, D := 1, X := 1, Y := 0]

  lemma SwapIds(b: nat, k: nat)
    ensures IsOp(SWAP, b, k) ==> 1 <= b <= 3 && k < 2 && SWAP[b].ops[k].id == if b == 3 then 7 + k else 2 * b - 1 + k
    ensures IsPhi(SWAP, b, k) ==> b == 3 && k < 2 && SWAP[b].phis[k].id == 5 + k
    ensures forall id :: !IsChi(SWAP, id)
  {
  }

  lemma SwapWellFormed()
    ensures Linked(SWAP) && Forward(SWAP) && UniqueIds(SWAP)
  {
    var ops := (id: nat) =>
      if id < 3 then Pt(1, Dec(id, 1)) else if id < 5 then Pt(2, Dec(id, 3)) else Pt(3, Dec(id, 7));
    var phis := (id: nat) => if 5 <= id < 7 then Pt(3, id - 5) else Pt(0, 0);
    forall b: nat, k: nat
      ensures IsOp(SWAP, b, k) ==> ops(SWAP[b].ops[k].id) == Pt(b, k) && phis(SWAP[b].ops[k].id) == Pt(0, 0)
      ensures IsPhi(SWAP, b, k) ==> phis(SWAP[b].phis[k].id) == Pt(b, k) && b > 0
    {
      SwapIds(b, k);
    }
    SwapIds(0, 0);
    Named(SWAP, ops, phis);
    SwapLinked();
  }

  lemma SwapSuccs(b: nat, s: nat)
    ensures Leads(SWAP, b, s) ==> b < s < |SWAP| && Comes(SWAP, s, b)
  {
  }

  lemma SwapPreds(b: nat, p: nat)
    ensures Comes(SWAP, b, p) ==> p < |SWAP| && Leads(SWAP, p, b)
  {
  }

  lemma SwapLinked()
    ensures Linked(SWAP) && Forward(SWAP)
  {
    forall b: nat, s: nat ensures Leads(SWAP, b, s) ==> b < s < |SWAP| && Comes(SWAP, s, b) {
      SwapSuccs(b, s);
    }
    forall b: nat, p: nat ensures Comes(SWAP, b, p) ==> p < |SWAP| && Leads(SWAP, p, b) {
      SwapPreds(b, p);
    }
    hide Leads, Comes;
    LinkedBy(SWAP);
  }

  lemma SwapEdges()
    ensures PhiDefs(SWAP[3]) == {X, Y} && PhiUses(SWAP, 1, 3) == {A, B} && PhiUses(SWAP, 2, 3) == {C, D}
  {
    SwapIds(0, 0);
    assert Pos([1, 2], 1) == 0 && Pos([2], 2) == 0 && Pos([1, 2], 2) == 1;
    assert PhiValue(SWAP[3].phis[0]) == X && PhiValue(SWAP[3].phis[1]) == Y;
  }

  /** The join and the last point of both ways. */
  lemma SwapLiveJoin(v: Value)
    ensures !Live(SWAP, v, 3, 2) && (Live(SWAP, v, 3, 1) <==> v == X) && (Live(SWAP, v, 3, 0) <==> v in {X, Y})
  {
    hide Live;
    SwapWellFormed();
    UseIs(7, Y);
    UseIs(8, X);
    LiveOverEdges(SWAP, v, 3);
    LiveOverOp(SWAP, v, 3, 1);
    LiveOverOp(SWAP, v, 3, 0);
  }

  lemma SwapLiveOut(v: Value, b: nat)
    requires 1 <= b <= 2
    ensures Live(SWAP, v, b, 2) <==> v in PhiUses(SWAP, b, 3)
  {
    hide Live, PhiUses, PhiDefs;
    SwapWellFormed();
    SwapLiveJoin(v);
    SwapEdges();
    OneEdge(SWAP, v, b, 3);
  }

  lemma SwapLiveWay(v: Value, b: nat)
    requires 1 <= b <= 2
    ensures Live(SWAP, v, b, 2) <==> v in if b == 1 then {A, B} else {C, D}
    ensures (Live(SWAP, v, b, 1) <==> v == if b == 1 then A else C) && !Live(SWAP, v, b, 0)
  {
    hide Live, PhiUses;
    SwapEdges();
    SwapLiveOut(v, b);
    DefIs(2 * b - 1, 0, []);
    DefIs(2 * b, 1, []);
    assert SWAP[b].ops == [Def(2 * b - 1, 0, []), Def(2 * b, 1, [])];
    LiveOverOp(SWAP, v, b, 1);
    LiveOverOp(SWAP, v, b, 0);
  }

  lemma SwapLiveEntry(v: Value)
    ensures !Live(SWAP, v, 0, 0)
  {
    hide Live;
    SwapWellFormed();
    SwapLiveWay(v, 1);
    SwapLiveWay(v, 2);
    LiveOverEdges(SWAP, v, 0);
    assert PhiUses(SWAP, 0, 1) == {} && PhiUses(SWAP, 0, 2) == {};
  }

  lemma SwapStrict()
    ensures Strict(SWAP)
  {
    forall b | 0 <= b < |SWAP| ensures Reachable(SWAP, b) {
      var path := if b == 0 then [0] else if b == 3 then [0, 1, 3] else [0, b];
      assert FromEntry(SWAP, path) && path[|path| - 1] == b;
    }
    forall v ensures !Live(SWAP, v, 0, 0) {
      SwapLiveEntry(v);
    }
  }

  lemma SwapSeparates()
    ensures Separates(SWAP, SWAPPED) && OnlyNeeded(SWAP, SWAPPED)
  {
    hide Live;
    DefIs(1, 0, []);
    DefIs(2, 1, []);
    DefIs(3, 0, []);
    DefIs(4, 1, []);
    UseIs(7, Y);
    UseIs(8, X);
    forall v, b: nat, k: nat | IsPoint(SWAP, b, k)
      ensures Occupied(SWAP, v, b, k) ==>
        v in (if b == 3 then {X, Y} else if b == 2 then {C, D} else if b == 1 then {A, B} else {})
    {
      SwapLiveJoin(v);
      SwapLiveWay(v, 1);
      SwapLiveWay(v, 2);
      SwapLiveEntry(v);
    }
    SwapLiveJoin(X);
    SwapLiveJoin(Y);
    assert Occupied(SWAP, X, 3, 0) && Occupied(SWAP, Y, 3, 0);
    assert Occupied(SWAP, A, 1, 1) && Occupied(SWAP, B, 1, 2) && Occupied(SWAP, C, 2, 1) && Occupied(SWAP, D, 2, 2);
  }

  lemma SwapMove(k: nat)
    requires Linked(SWAP) && k < 2
    ensures PhiMoves(SWAP, SWAPPED, 1, 3, k) == [if k == 0 then Move((0, 1), (0, 0)) else Move((0, 0), (0, 1))]
  {
    hide Linked;
    SwapIds(3, k);
    assert PhiValue(SWAP[3].phis[k]) == (if k == 0 then X else Y);
    assert SWAP[3].phis[k].opnds == if k == 0 then [A, C] else [B, D];
    TwoOperands(SWAP, SWAPPED, 1, 3, k);
  }

  /** The moves into the first way: x gets a, then y gets b from the register just written. */
  lemma SwapMoves()
    ensures Linked(SWAP)
    ensures MovesInto(SWAP, SWAPPED, 1, 4) == [Move((0, 1), (0, 0)), Move((0, 0), (0, 1))]
  {
    hide PhiMoves, Linked;
    SwapLinked();
    SwapMove(0);
    SwapMove(1);
    NoPhis(SWAP, SWAPPED, 1, 3);
    assert BlockMoves(SWAP, SWAPPED, 1, 3, 1) == PhiMoves(SWAP, SWAPPED, 1, 3, 0);
    assert BlockMoves(SWAP, SWAPPED, 1, 3, 2) == PhiMoves(SWAP, SWAPPED, 1, 3, 0) + PhiMoves(SWAP, SWAPPED, 1, 3, 1);
  }

  const SWAP_WAY: seq<Pt> := [Pt(0, 0), Pt(1, 0), Pt(1, 1), Pt(1, 2)]

  /** On the first way a is 1 and b is 2. */
  lemma SwapRun()
    ensures IsRun(SWAP, SWAP_WAY)
    ensures var env := RunPregs(SWAP, SWAP_WAY, map[], Idents()); A in env && B in env && env[A] == 1 && env[B] == 2
  {
    var w := SWAP_WAY;
    assert Follows(SWAP, w[0], w[1]) && Follows(SWAP, w[1], w[2]) && Follows(SWAP, w[2], w[3]);
    assert w[..3] == [Pt(0, 0), Pt(1, 0), Pt(1, 1)] && w[..3][..2] == [Pt(0, 0), Pt(1, 0)] &&
           w[..3][..2][..1] == [Pt(0, 0)];
    var env1 := RunPregs(SWAP, w[..3][..2], map[], Idents());
    DefRuns(1, 0, env1);
    DefRuns(2, 1, RunPregs(SWAP, w[..3], map[], Idents()));
  }

  lemma SwapFirst(v: Value)
    requires v in SWAPPED
    ensures FirstResult(SWAP, v)
  {
    var b := if v in {A, B} then 1 else 2;
    var k := if v in {A, C, X} then 0 else 1;
    hide FirstResult;
    if v in {X, Y} {
      FirstOfPhi(SWAP, v, 3, k);
    } else {
      FirstOfDef(SWAP, v, b, k, []);
    }
  }

  lemma SwapHeld()
    ensures OperandsHeld(SWAP, SWAPPED)
  {
    forall s: nat, k: nat, i: nat | s < |SWAP| && k < |SWAP[s].phis| && i < |SWAP[s].phis[k].opnds|
      ensures RegNum(SWAPPED, SWAP[s].phis[k].opnds[i]) != REG_UNKNOWN
    {
      SwapIds(s, k);
      assert SWAP[s].phis[k].opnds[i] in [A, B, C, D];
    }
  }

  /** All that the allocation promises holds, and no assertion of the rewriter fails. */
  lemma SwapPromises()
    ensures Rewritable(SWAP, SWAPPED)
    ensures WellFormed(SWAP) && Strict(SWAP) && Separates(SWAP, SWAPPED) && OnlyNeeded(SWAP, SWAPPED) &&
            ProperPhis(SWAP)
  {
    hide Live, UniqueIds, Linked, Separates, OnlyNeeded, Strict, FirstResult, OperandsHeld;
    SwapHeld();
    forall v | v in SWAPPED ensures FirstResult(SWAP, v) {
      SwapFirst(v);
    }
    SwapWellFormed();
    SwapStrict();
    SwapSeparates();
    SwapIds(0, 0);
  }

  lemma SwapClash()
    ensures var ms := [Move((0, 1), (0, 0)), Move((0, 0), (0, 1))]; !InOrder(ms) && Source(ms, (0, 0)) == (0, 0)
  {
    var ms := [Move((0, 1), (0, 0)), Move((0, 0), (0, 1))];
    assert ms[0].dst == ms[1].src;
    assert ms[1..] == [ms[1]] && [ms[1]][1..] == [];
    assert Source([ms[1]], (0, 0)) == (0, 1);
  }

  lemma SwapWants()
    ensures Wants(SWAP, 1, 3, Y, B)
  {
    SwapIds(0, 0);
    assert Pos([1, 2], 1) == 0;
    assert PhiValue(SWAP[3].phis[1]) == Y && EdgeOpnd(SWAP, 1, 3, 1) == Some(B);
  }

  lemma SwapMixes()
    ensures Mixes(SWAP, SWAPPED, 1, 3, [Move((0, 1), (0, 0)), Move((0, 0), (0, 1))], Y, B, A)
  {
    hide Live, Wants, Source;
    SwapClash();
    SwapLiveJoin(Y);
    SwapLiveWay(A, 1);
    SwapLiveWay(B, 1);
    SwapWants();
    assert SWAP[1].succs[0] == 3 && |SWAP[1].ops| == 2;
  }

  /** Two phis swap the registers of their operands: y reads a. */
  lemma SwapLoses(moves: seq<seq<Move>>)
    requires Linked(SWAP) && Emitted(SWAP, SWAPPED, moves)
    ensures !InOrder(moves[1]) && !Refines(SWAP, SWAPPED, Code(moves))
  {
    SwapMoves();
    SwapClash();
    assert moves[1] == MovesInto(SWAP, SWAPPED, 1, 4) && |moves| == 4;
    hide UniqueIds, Linked, Refines, Emitted, InOrder, Mixes, IsRun, RunPregs, MovesInto;
    SwapWellFormed();
    SwapMixes();
    SwapRun();
    RunLoses(SWAP, SWAPPED, moves, SWAP_WAY, Idents(), 1, 3, Y, B, A);
  }

  // ----- a move on the wrong way -----------------------------------------------------------

  const V := Value(0, 1, 0)
  const W := Value(1, 2, 0)
  const U := Value(1, 3, 0)
  const Z := Value(1, 4, 0)

  /** z = phi(w, u) is reached past u = f(v) or directly. */
  const DETOUR: Cfg := [
    Block([], [], [Def(1, 0, []), Def(2, 1, [])], [], [1, 2]),
    Block([], [], [Def(3, 1, [V])], [0], [2]),
    Block([], [Phi(4, 1, 0, [W, U])], [Use(5, Z)], [0, 1], [])
  ]

  const DETOURED: Assignment := map[V := 0, W := 1, U := 0, Z := 0]

  lemma DetourSuccs(b: nat, s: nat)
    ensures Leads(DETOUR, b, s) ==> b < s < |DETOUR| && Comes(DETOUR, s, b)
  {
  }

  lemma DetourPreds(b: nat, p: nat)
    ensures Comes(DETOUR, b, p) ==> p < |DETOUR| && Leads(DETOUR, p, b)
  {
  }

  lemma DetourLinked()
    ensures Linked(DETOUR) && Forward(DETOUR)
  {
    forall b: nat, s: nat ensures Leads(DETOUR, b, s) ==> b < s < |DETOUR| && Comes(DETOUR, s, b) {
      DetourSuccs(b, s);
    }
    forall b: nat, p: nat ensures Comes(DETOUR, b, p) ==> p < |DETOUR| && Leads(DETOUR, p, b) {
      DetourPreds(b, p);
    }
    hide Leads, Comes;
    LinkedBy(DETOUR);
  }

  lemma DetourIds(b: nat, k: nat)
    ensures IsOp(DETOUR, b, k) ==> b <= 2 && k < 2 - b % 2 && (b == 2 ==> k == 0)
                                   && DETOUR[b].ops[k].id == if b == 0 then 1 + k else if b == 1 then 3 else 5
    ensures IsPhi(DETOUR, b, k) ==> b == 2 && k == 0 && DETOUR[b].phis[k].id == 4
    ensures forall id :: !IsChi(DETOUR, id)
  {
  }

  lemma DetourWellFormed()
    ensures WellFormed(DETOUR)
  {
    var ops := (id: nat) => if id < 3 then Pt(0, Dec(id, 1)) else if id < 4 then Pt(1, 0) else Pt(2, 0);
    var phis := (id: nat) => if id == 4 then Pt(2, 0) else Pt(0, 0);
    forall b: nat, k: nat
      ensures IsOp(DETOUR, b, k) ==> ops(DETOUR[b].ops[k].id) == Pt(b, k) && phis(DETOUR[b].ops[k].id) == Pt(0, 0)
      ensures IsPhi(DETOUR, b, k) ==> phis(DETOUR[b].phis[k].id) == Pt(b, k) && b > 0
    {
      DetourIds(b, k);
    }
    DetourIds(0, 0);
    Named(DETOUR, ops, phis);
    DetourLinked();
  }

  lemma DetourEdges()
    ensures PhiDefs(DETOUR[2]) == {Z} && PhiUses(DETOUR, 0, 2) == {W} && PhiUses(DETOUR, 1, 2) == {U}
    ensures PhiDefs(DETOUR[1]) == {} && PhiUses(DETOUR, 0, 1) == {}
  {
    DetourIds(0, 0);
    assert Pos([0, 1], 0) == 0 && Pos([1], 1) == 0 && Pos([0, 1], 1) == 1;
    assert PhiValue(DETOUR[2].phis[0]) == Z;
  }

  lemma DetourLiveEnd(v: Value)
    ensures !Live(DETOUR, v, 2, 1) && (Live(DETOUR, v, 2, 0) <==> v == Z)
    ensures (Live(DETOUR, v, 1, 1) <==> v == U) && (Live(DETOUR, v, 1, 0) <==> v == V)
  {
    hide Live, PhiUses, PhiDefs;
    DetourLinked();
    DetourEdges();
    UseIs(5, Z);
    DefIs(3, 1, [V]);
    LiveOverEdges(DETOUR, v, 2);
    LiveOverOp(DETOUR, v, 2, 0);
    OneEdge(DETOUR, v, 1, 2);
    LiveOverOp(DETOUR, v, 1, 0);
  }

  lemma DetourLive(v: Value)
    ensures (Live(DETOUR, v, 0, 2) <==> v in {V, W}) && (Live(DETOUR, v, 0, 1) <==> v == V) && !Live(DETOUR, v, 0, 0)
  {
    hide Live, PhiUses, PhiDefs;
    DetourLinked();
    DetourEdges();
    DetourLiveEnd(v);
    DefIs(1, 0, []);
    DefIs(2, 1, []);
    LiveOverEdges(DETOUR, v, 0);
    assert LiveOnEdge(DETOUR, v, 0, 1) <==> v == V;
    assert LiveOnEdge(DETOUR, v, 0, 2) <==> v == W;
    assert DETOUR[0].succs[0] == 1 && DETOUR[0].succs[1] == 2;
    LiveOverOp(DETOUR, v, 0, 1);
    LiveOverOp(DETOUR, v, 0, 0);
  }

  lemma DetourStrict()
    ensures Strict(DETOUR)
  {
    forall b | 0 <= b < |DETOUR| ensures Reachable(DETOUR, b) {
      var path := if b == 0 then [0] else [0, b];
      assert FromEntry(DETOUR, path) && path[|path| - 1] == b;
    }
    forall v ensures !Live(DETOUR, v, 0, 0) {
      DetourLive(v);
    }
  }

  lemma DetourSeparates()
    ensures Separates(DETOUR, DETOURED) && OnlyNeeded(DETOUR, DETOURED)
  {
    hide Live;
    DefIs(1, 0, []);
    DefIs(2, 1, []);
    DefIs(3, 1, [V]);
    UseIs(5, Z);
    forall v, b: nat, k: nat | IsPoint(DETOUR, b, k)
      ensures Occupied(DETOUR, v, b, k) ==>
        v in (if b == 2 then {Z} else if b == 0 then {V, W} else if k == 0 then {V} else {U})
    {
      DetourLiveEnd(v);
      DetourLive(v);
    }
    DetourLiveEnd(Z);
    assert Occupied(DETOUR, Z, 2, 0) && Occupied(DETOUR, U, 1, 1);
    assert Occupied(DETOUR, V, 0, 1) && Occupied(DETOUR, W, 0, 2);
  }

  lemma DetourFirst(v: Value)
    requires v in DETOURED
    ensures FirstResult(DETOUR, v)
  {
    hide FirstResult;
    if v == Z {
      FirstOfPhi(DETOUR, v, 2, 0);
    } else if v == U {
      FirstOfDef(DETOUR, v, 1, 0, [V]);
    } else {
      FirstOfDef(DETOUR, v, 0, if v == V then 0 else 1, []);
    }
  }

  lemma DetourHeld()
    ensures OperandsHeld(DETOUR, DETOURED)
  {
    forall s: nat, k: nat, i: nat | s < |DETOUR| && k < |DETOUR[s].phis| && i < |DETOUR[s].phis[k].opnds|
      ensures RegNum(DETOURED, DETOUR[s].phis[k].opnds[i]) != REG_UNKNOWN
    {
      DetourIds(s, k);
      assert DETOUR[s].phis[k].opnds[i] in [W, U];
    }
  }

  /** Of the values live at the end of a block, v and w meet in the first one, and are different there. */
  lemma DetourNoTwins()
    ensures NoTwins(DETOUR)
  {
    hide Live, IsRun, RunPregs;
    DetourRun();
    forall b: nat, v, w | b < |DETOUR| && Live(DETOUR, v, b, |DETOUR[b].ops|)
                          && Live(DETOUR, w, b, |DETOUR[b].ops|) && v != w
      ensures ToldApart(DETOUR, b, v, w)
    {
      DetourLiveEnd(v);
      DetourLiveEnd(w);
      DetourLive(v);
      DetourLive(w);
      assert b == 0;
      assert IsRun(DETOUR, DETOUR_WAY) && DETOUR_WAY[|DETOUR_WAY| - 1] == Pt(0, |DETOUR[0].ops|);
    }
  }

  lemma DetourPromises()
    ensures Rewritable(DETOUR, DETOURED) && NoTwins(DETOUR)
    ensures WellFormed(DETOUR) && Strict(DETOUR) && Separates(DETOUR, DETOURED) && OnlyNeeded(DETOUR, DETOURED)
    ensures ProperPhis(DETOUR)
  {
    hide Live, UniqueIds, Linked, Separates, OnlyNeeded, Strict, FirstResult, OperandsHeld, NoTwins;
    DetourNoTwins();
    DetourHeld();
    forall v | v in DETOURED ensures FirstResult(DETOUR, v) {
      DetourFirst(v);
    }
    DetourWellFormed();
    DetourStrict();
    DetourSeparates();
    DetourIds(0, 0);
  }

  /** The move for z is executed on the way to u as well. */
  lemma DetourMove()
    requires Linked(DETOUR)
    ensures PhiMoves(DETOUR, DETOURED, 0, 2, 0) == [Move((0, 0), (0, 1))]
  {
    hide Linked;
    DetourIds(2, 0);
    assert PhiValue(DETOUR[2].phis[0]) == Z && DETOUR[2].phis[0].opnds == [W, U];
    TwoOperands(DETOUR, DETOURED, 0, 2, 0);
  }

  lemma DetourMoves()
    ensures Linked(DETOUR) && MovesInto(DETOUR, DETOURED, 0, 3) == [Move((0, 0), (0, 1))]
  {
    hide PhiMoves, Linked;
    DetourLinked();
    DetourMove();
    NoPhis(DETOUR, DETOURED, 0, 2);
    assert BlockMoves(DETOUR, DETOURED, 0, 2, 0) == [];
    assert BlockMoves(DETOUR, DETOURED, 0, 2, 1) == PhiMoves(DETOUR, DETOURED, 0, 2, 0);
  }

  const DETOUR_WAY: seq<Pt> := [Pt(0, 0), Pt(0, 1), Pt(0, 2)]

  lemma DetourRun()
    ensures IsRun(DETOUR, DETOUR_WAY)
    ensures var env := RunPregs(DETOUR, DETOUR_WAY, map[], Idents()); V in env && W in env && env[V] == 1 && env[W] == 2
  {
    var w := DETOUR_WAY;
    assert Follows(DETOUR, w[0], w[1]) && Follows(DETOUR, w[1], w[2]);
    assert w[..2] == [Pt(0, 0), Pt(0, 1)] && w[..2][..1] == [Pt(0, 0)];
    DefRuns(1, 0, map[]);
    DefRuns(2, 1, RunPregs(DETOUR, w[..2], map[], Idents()));
  }

  lemma DetourClash()
    ensures var ms := [Move((0, 0), (0, 1))]; Source(ms, (0, 0)) == (0, 1) && !NoClobber(DETOUR, DETOURED, 0, ms)
    ensures Wants(DETOUR, 0, 1, V, V)
  {
    hide Live;
    var ms := [Move((0, 0), (0, 1))];
    assert ms[1..] == [] && ms[0] in ms;
    DetourLiveEnd(V);
    assert Wants(DETOUR, 0, 1, V, V) && Live(DETOUR, V, 1, 0) && 1 in DETOUR[0].succs;
    assert RegOf(DETOURED, V) == ms[0].dst != ms[0].src;
  }

  lemma DetourMixes()
    ensures Mixes(DETOUR, DETOURED, 0, 1, [Move((0, 0), (0, 1))], V, V, W)
  {
    hide Live, Wants, Source, NoClobber;
    DetourClash();
    DetourLiveEnd(V);
    DetourLive(V);
    DetourLive(W);
    assert DETOUR[0].succs[0] == 1 && |DETOUR[0].ops| == 2;
  }

  /** f reads w instead of v. */
  lemma DetourLoses(moves: seq<seq<Move>>)
    requires Linked(DETOUR) && Emitted(DETOUR, DETOURED, moves)
    ensures !NoClobber(DETOUR, DETOURED, 0, moves[0]) && !Refines(DETOUR, DETOURED, Code(moves))
  {
    DetourMoves();
    DetourClash();
    assert moves[0] == MovesInto(DETOUR, DETOURED, 0, 3) && |moves| == 3;
    hide UniqueIds, Linked, Refines, Emitted, NoClobber, Mixes, IsRun, RunPregs, MovesInto;
    DetourWellFormed();
    DetourMixes();
    DetourRun();
    RunLoses(DETOUR, DETOURED, moves, DETOUR_WAY, Idents(), 0, 1, V, V, W);
  }
}
