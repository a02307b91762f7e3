/**
  Running a graph on pseudo registers and on the registers they were given.
  What code stands on the edges for the phis is a parameter: both runs read the
  same values along every path, wherever the pseudo register has a defined one,
  exactly when that code keeps the values of every edge.
 */
module Execution {
  import opened Basics
  import opened LiveIntervals
  import opened Liveness

  /** The meaning of instructions, left open: results from the pseudo registers read. */
  type Ops = (nat, seq<int>) -> seq<int>

  /** The values that are defined. */
  type PregState = map<Value, int>

  /** A register: class and number. */
  type RegState = map<(nat, nat), int>

  /** The register number of each value that was given one. */
  type Assignment = map<Value, nat>

  function ReadReg(regs: RegState, reg: (nat, nat)): int {
    if reg in regs then regs[reg] else 0
  }

  function RegOf(asg: Assignment, v: Value): (nat, nat) {
    (v.cls, if v in asg then asg[v] else REG_UNKNOWN)
  }

  function ResultAt(vals: seq<int>, k: nat): int {
    if k < |vals| then vals[k] else 0
  }

  // ----- instructions --------------------------------------------------------------

  /** The pseudo registers among the first `n` operands, in order. */
  function Args(op: Op, n: nat): seq<Value>
    requires n <= |op.opnds|
  {
    if n == 0 then []
    else Args(op, n - 1) + if op.opnds[n - 1].PregOpnd? then [op.opnds[n - 1].value] else []
  }

  function ReadPregs(args: seq<Value>, env: PregState): seq<int>
    requires forall v :: v in args ==> v in env
  {
    seq(|args|, i requires 0 <= i < |args| => env[args[i]])
  }

  function ReadRegs(args: seq<Value>, asg: Assignment, regs: RegState): seq<int> {
    seq(|args|, i requires 0 <= i < |args| => ReadReg(regs, RegOf(asg, args[i])))
  }

  function ResValue(op: Op, k: nat): Value
    requires k < |op.res| && op.res[k].PregRes?
  {
    Value(op.res[k].preg, op.id, op.res[k].cls)
  }

  function WritePregs(op: Op, n: nat, vals: seq<int>, env: PregState): PregState
    requires n <= |op.res|
  {
    if n == 0 then env
    else
      var e := WritePregs(op, n - 1, vals, env);
      if op.res[n - 1].PregRes? then e[ResValue(op, n - 1) := ResultAt(vals, n - 1)] else e
  }

  function WriteRegs(op: Op, n: nat, vals: seq<int>, asg: Assignment, regs: RegState): RegState
    requires n <= |op.res|
  {
    if n == 0 then regs
    else
      var r := WriteRegs(op, n - 1, vals, asg, regs);
      if op.res[n - 1].PregRes? then r[RegOf(asg, ResValue(op, n - 1)) := ResultAt(vals, n - 1)] else r
  }

  /** With an undefined operand the results are undefined. */
  function StepPregs(op: Op, env: PregState, ops: Ops): PregState {
    var args := Args(op, |op.opnds|);
    if forall v :: v in args ==> v in env
    then WritePregs(op, |op.res|, ops(op.id, ReadPregs(args, env)), env)
    else env - Defs(op)
  }

  function StepRegs(op: Op, asg: Assignment, regs: RegState, ops: Ops): RegState {
    WriteRegs(op, |op.res|, ops(op.id, ReadRegs(Args(op, |op.opnds|), asg, regs)), asg, regs)
  }

  // ----- edges --------------------------------------------------------------------------

  /** What phi `k` of `s` reads on the edge from `b`; a chi has no defined value. */
  function EdgeOpnd(g: Cfg, b: nat, s: nat, k: nat): Option<Value>
    requires s < |g| && k < |g[s].phis|
  {
    var i := Pos(g[s].preds, b);
    if i < |g[s].phis[k].opnds| && !IsChi(g, g[s].phis[k].opnds[i].def)
    then Some(g[s].phis[k].opnds[i]) else None
  }

  /** The first `n` phis of `s`, all reading the values before the edge. */
  function EdgePregs(g: Cfg, b: nat, s: nat, n: nat, env: PregState): PregState
    requires s < |g| && n <= |g[s].phis|
  {
    if n == 0 then env
    else
      var e := EdgePregs(g, b, s, n - 1, env);
      var opnd := EdgeOpnd(g, b, s, n - 1);
      var res := PhiValue(g[s].phis[n - 1]);
      if opnd.Some? && opnd.value in env then e[res := env[opnd.value]] else e - {res}
  }

  /** Ideal code for the phis: copies that all read before any writes.  A phi without a register is dropped. */
  function EdgeRegs(g: Cfg, b: nat, s: nat, n: nat, asg: Assignment, regs: RegState): RegState
    requires s < |g| && n <= |g[s].phis|
  {
    if n == 0 then regs
    else
      var r := EdgeRegs(g, b, s, n - 1, asg, regs);
      var opnd := EdgeOpnd(g, b, s, n - 1);
      var res := PhiValue(g[s].phis[n - 1]);
      if res !in asg then r
      else r[RegOf(asg, res) := if opnd.Some? then ReadReg(regs, RegOf(asg, opnd.value)) else 0]
  }

  // ----- paths ----------------------------------------------------------------------------

  /** What happens to the registers on the edge from one block to another. */
  type EdgeCode = (nat, nat, RegState) -> RegState

  /** Control can pass from `p` to `q`. */
  ghost predicate Follows(g: Cfg, p: Pt, q: Pt) {
    && IsPoint(g, p.b, p.k) && IsPoint(g, q.b, q.k)
    && if p.k < |g[p.b].ops| then q == Pt(p.b, p.k + 1) else q.b in g[p.b].succs && q.k == 0
  }

  ghost predicate IsPath(g: Cfg, path: seq<Pt>) {
    && path != [] && IsPoint(g, path[0].b, path[0].k)
    && forall i :: 0 < i < |path| ==> Follows(g, path[i - 1], path[i])
  }

  /** A path of the graph that starts at its entry. */
  ghost predicate IsRun(g: Cfg, path: seq<Pt>) {
    IsPath(g, path) && path[0] == Pt(0, 0)
  }

  ghost function MovePregs(g: Cfg, p: Pt, q: Pt, env: PregState, ops: Ops): PregState
    requires Follows(g, p, q)
  {
    if p.k < |g[p.b].ops| then StepPregs(g[p.b].ops[p.k], env, ops)
    else EdgePregs(g, p.b, q.b, |g[q.b].phis|, env)
  }

  ghost function MoveRegs(g: Cfg, p: Pt, q: Pt, asg: Assignment, regs: RegState, ops: Ops, edge: EdgeCode): RegState
    requires Follows(g, p, q)
  {
    if p.k < |g[p.b].ops| then StepRegs(g[p.b].ops[p.k], asg, regs, ops)
    else edge(p.b, q.b, regs)
  }

  lemma PathPrefix(g: Cfg, path: seq<Pt>)
    requires IsPath(g, path) && |path| > 1
    ensures var n := |path| - 1; IsPath(g, path[..n]) && path[..n][0] == path[0] && path[..n][n - 1] == path[n - 1]
    ensures Follows(g, path[|path| - 2], path[|path| - 1])
  {
    var n := |path| - 1;
    assert forall i :: 0 <= i < n ==> path[..n][i] == path[i];
  }

  /** The values at the end of a path. */
  ghost function RunPregs(g: Cfg, path: seq<Pt>, env: PregState, ops: Ops): PregState
    requires IsPath(g, path)
    decreases |path|
  {
    var n := |path| - 1;
    if n == 0 then env
    else
      PathPrefix(g, path);
      MovePregs(g, path[n - 1], path[n], RunPregs(g, path[..n], env, ops), ops)
  }

  ghost function RunRegs(g: Cfg, path: seq<Pt>, asg: Assignment, regs: RegState, ops: Ops, edge: EdgeCode): RegState
    requires IsPath(g, path)
    decreases |path|
  {
    var n := |path| - 1;
    if n == 0 then regs
    else
      PathPrefix(g, path);
      MoveRegs(g, path[n - 1], path[n], asg, RunRegs(g, path[..n], asg, regs, ops, edge), ops, edge)
  }

  // ----- what an assignment must satisfy ------------------------------------------------------

  /** Values that are occupied at a point have registers, and different ones within a class. */
  ghost predicate Separates(g: Cfg, asg: Assignment) {
    && (forall v, b: nat, k: nat :: IsPoint(g, b, k) && Occupied(g, v, b, k) ==> v in asg)
    && (forall v, w, b: nat, k: nat :: IsPoint(g, b, k) && Occupied(g, v, b, k) && Occupied(g, w, b, k) && v != w ==>
          RegOf(asg, v) != RegOf(asg, w))
  }

  /** A value with a register is occupied somewhere. */
  ghost predicate OnlyNeeded(g: Cfg, asg: Assignment) {
    forall v :: v in asg ==> exists b: nat, k: nat :: IsPoint(g, b, k) && Occupied(g, v, b, k)
  }

  /** Every live value that is defined sits in its register. */
  ghost predicate Agree(g: Cfg, b: nat, k: nat, env: PregState, asg: Assignment, regs: RegState) {
    forall v :: Live(g, v, b, k) && v in env ==> ReadReg(regs, RegOf(asg, v)) == env[v]
  }

  /** The code on every edge keeps the agreement, from every state. */
  ghost predicate EdgesAgree(g: Cfg, asg: Assignment, edge: EdgeCode) {
    forall b: nat, s: nat, env, regs | b < |g| && s in g[b].succs && s < |g| ::
      Agree(g, b, |g[b].ops|, env, asg, regs) ==>
        Agree(g, s, 0, EdgePregs(g, b, s, |g[s].phis|, env), asg, edge(b, s, regs))
  }

  // ----- one instruction ------------------------------------------------------------------------

  lemma {:induction false} ArgsUsed(op: Op, n: nat)
    requires n <= |op.opnds|
    ensures forall v :: v in Args(op, n) <==> v in UsesUpTo(op, n)
  {
    if n > 0 {
      ArgsUsed(op, n - 1);
    }
  }

  /** Both machines read the same operands. */
  lemma SameArgs(g: Cfg, b: nat, k: nat, env: PregState, asg: Assignment, regs: RegState)
    requires IsOp(g, b, k) && Agree(g, b, k, env, asg, regs)
    requires var op := g[b].ops[k]; forall v :: v in Args(op, |op.opnds|) ==> v in env
    ensures var args := Args(g[b].ops[k], |g[b].ops[k].opnds|); ReadPregs(args, env) == ReadRegs(args, asg, regs)
  {
    var op := g[b].ops[k];
    var args := Args(op, |op.opnds|);
    ArgsUsed(op, |op.opnds|);
    forall i | 0 <= i < |args| ensures env[args[i]] == ReadReg(regs, RegOf(asg, args[i])) {
      assert args[i] in args;
      LiveOverOp(g, args[i], b, k);
    }
  }

  /** Writing results to registers no other value of interest sits in. */
  lemma {:induction false} WritesAgree(op: Op, n: nat, vals: seq<int>, env: PregState, asg: Assignment,
                                       regs: RegState, v: Value)
    requires n <= |op.res|
    requires forall w :: w in Defs(op) && w != v ==> RegOf(asg, w) != RegOf(asg, v)
    ensures var e, r := WritePregs(op, n, vals, env), WriteRegs(op, n, vals, asg, regs);
            if v in DefsUpTo(op, n) then v in e && e[v] == ReadReg(r, RegOf(asg, v))
            else (v in e <==> v in env) && (v in e ==> e[v] == env[v])
                 && ReadReg(r, RegOf(asg, v)) == ReadReg(regs, RegOf(asg, v))
  {
    if n > 0 {
      WritesAgree(op, n - 1, vals, env, asg, regs, v);
      if op.res[n - 1].PregRes? {
        assert ResValue(op, n - 1) in Defs(op);
      }
    }
  }

  lemma OpAgrees(g: Cfg, b: nat, k: nat, env: PregState, asg: Assignment, regs: RegState, ops: Ops)
    requires IsOp(g, b, k) && Separates(g, asg) && Agree(g, b, k, env, asg, regs)
    ensures var op := g[b].ops[k]; Agree(g, b, k + 1, StepPregs(op, env, ops), asg, StepRegs(op, asg, regs, ops))
  {
    hide Live;
    var op := g[b].ops[k];
    var args := Args(op, |op.opnds|);
    var vals := ops(op.id, ReadRegs(args, asg, regs));
    if forall v :: v in args ==> v in env {
      SameArgs(g, b, k, env, asg, regs);
    }
    var env' := StepPregs(op, env, ops);
    forall v | Live(g, v, b, k + 1) && v in env'
      ensures ReadReg(StepRegs(op, asg, regs, ops), RegOf(asg, v)) == env'[v]
    {
      assert Occupied(g, v, b, k + 1);
      forall w | w in Defs(op) && w != v ensures RegOf(asg, w) != RegOf(asg, v) {
        assert Occupied(g, w, b, k + 1);
      }
      WritesAgree(op, |op.res|, vals, env, asg, regs, v);
      LiveOverOp(g, v, b, k);
    }
  }

  // ----- one edge ----------------------------------------------------------------------------------

  /** Copies to registers no other value of interest sits in. */
  lemma {:induction false} CopiesAgree(g: Cfg, b: nat, s: nat, n: nat, env: PregState, asg: Assignment,
                                       regs: RegState, v: Value)
    requires s < |g| && n <= |g[s].phis| && v in asg
    requires forall k: nat :: k < |g[s].phis| && PhiValue(g[s].phis[k]) in asg && PhiValue(g[s].phis[k]) != v ==>
               RegOf(asg, PhiValue(g[s].phis[k])) != RegOf(asg, v)
    requires forall k: nat :: k < |g[s].phis| ==>
               var o := EdgeOpnd(g, b, s, k);
               o.Some? && o.value in env ==> ReadReg(regs, RegOf(asg, o.value)) == env[o.value]
    requires v in env && (forall k: nat :: k < |g[s].phis| ==> PhiValue(g[s].phis[k]) != v) ==>
               ReadReg(regs, RegOf(asg, v)) == env[v]
    ensures var e, r := EdgePregs(g, b, s, n, env), EdgeRegs(g, b, s, n, asg, regs);
            if exists k: nat :: k < n && PhiValue(g[s].phis[k]) == v
            then v in e ==> e[v] == ReadReg(r, RegOf(asg, v))
            else (v in e <==> v in env) && (v in e ==> e[v] == env[v])
                 && ReadReg(r, RegOf(asg, v)) == ReadReg(regs, RegOf(asg, v))
  {
    if n > 0 {
      CopiesAgree(g, b, s, n - 1, env, asg, regs, v);
      assert EdgeOpnd(g, b, s, n - 1) == EdgeOpnd(g, b, s, n - 1);
      var res := PhiValue(g[s].phis[n - 1]);
      if res != v {
        assert (exists k: nat :: k < n && PhiValue(g[s].phis[k]) == v) <==>
               (exists k: nat :: k < n - 1 && PhiValue(g[s].phis[k]) == v);
      }
    }
  }

  /** In strict form a phi with a register is live at its block. */
  lemma PhiNeeded(g: Cfg, s: nat, k: nat, asg: Assignment)
    requires WellFormed(g) && Strict(g) && OnlyNeeded(g, asg)
    requires IsPhi(g, s, k) && PhiValue(g[s].phis[k]) in asg
    ensures Live(g, PhiValue(g[s].phis[k]), s, 0)
  {
    hide Live, Linked, IsChi;
    var v := PhiValue(g[s].phis[k]);
    var b: nat, j: nat :| IsPoint(g, b, j) && Occupied(g, v, b, j);
    assert DefinedAt(g, v, s, 0);
    if Live(g, v, b, j) {
      LiveMeetsDef(g, v, b, j);
      var b': nat, j': nat :| DefinedAt(g, v, b', j') && Live(g, v, b', j');
      OneDef(g, v, s, 0, b', j');
    } else {
      assert DefinedAt(g, v, b, j);
      OneDef(g, v, s, 0, b, j);
      assert false;
    }
  }

  lemma EdgeAgrees(g: Cfg, b: nat, s: nat, env: PregState, asg: Assignment, regs: RegState)
    requires WellFormed(g) && Strict(g) && Separates(g, asg) && OnlyNeeded(g, asg)
    requires b < |g| && s in g[b].succs && s < |g| && Agree(g, b, |g[b].ops|, env, asg, regs)
    ensures var n := |g[s].phis|; Agree(g, s, 0, EdgePregs(g, b, s, n, env), asg, EdgeRegs(g, b, s, n, asg, regs))
  {
    var n := |g[s].phis|;
    var env' := EdgePregs(g, b, s, n, env);
    forall v | Live(g, v, s, 0) && v in env'
      ensures ReadReg(EdgeRegs(g, b, s, n, asg, regs), RegOf(asg, v)) == env'[v]
    {
      EdgeAgreesAt(g, b, s, env, asg, regs, v);
    }
  }

  lemma EdgeAgreesAt(g: Cfg, b: nat, s: nat, env: PregState, asg: Assignment, regs: RegState, v: Value)
    requires WellFormed(g) && Strict(g) && Separates(g, asg) && OnlyNeeded(g, asg)
    requires b < |g| && s in g[b].succs && s < |g| && Agree(g, b, |g[b].ops|, env, asg, regs)
    requires Live(g, v, s, 0) && v in EdgePregs(g, b, s, |g[s].phis|, env)
    ensures ReadReg(EdgeRegs(g, b, s, |g[s].phis|, asg, regs), RegOf(asg, v)) == EdgePregs(g, b, s, |g[s].phis|, env)[v]
  {
    hide Live, UniqueIds, Linked, Forward;
    assert Occupied(g, v, s, 0);
    forall k: nat | k < |g[s].phis| && PhiValue(g[s].phis[k]) in asg && PhiValue(g[s].phis[k]) != v
      ensures RegOf(asg, PhiValue(g[s].phis[k])) != RegOf(asg, v)
    {
      PhiNeeded(g, s, k, asg);
      assert Occupied(g, PhiValue(g[s].phis[k]), s, 0);
    }
    forall k: nat | k < |g[s].phis|
      ensures var o := EdgeOpnd(g, b, s, k); o.Some? && o.value in env ==>
              ReadReg(regs, RegOf(asg, o.value)) == env[o.value]
    {
      var o := EdgeOpnd(g, b, s, k);
      if o.Some? {
        assert o.value in PhiUses(g, b, s);
        assert LiveOnEdge(g, o.value, b, s);
        LiveOverEdges(g, o.value, b);
      }
    }
    if forall k: nat :: k < |g[s].phis| ==> PhiValue(g[s].phis[k]) != v {
      assert v !in PhiDefs(g[s]);
      assert LiveOnEdge(g, v, b, s);
      LiveOverEdges(g, v, b);
    }
    CopiesAgree(g, b, s, |g[s].phis|, env, asg, regs, v);
  }

  /** Copies in parallel. */
  function Parallel(g: Cfg, asg: Assignment): EdgeCode {
    (b: nat, s: nat, regs: RegState) => if s < |g| then EdgeRegs(g, b, s, |g[s].phis|, asg, regs) else regs
  }

  lemma ParallelAgrees(g: Cfg, asg: Assignment)
    requires WellFormed(g) && Strict(g) && Separates(g, asg) && OnlyNeeded(g, asg)
    ensures EdgesAgree(g, asg, Parallel(g, asg))
  {
    hide WellFormed, Strict, Separates, OnlyNeeded, Agree, EdgePregs, EdgeRegs;
    forall b: nat, s: nat, env, regs | b < |g| && s in g[b].succs && s < |g| && Agree(g, b, |g[b].ops|, env, asg, regs)
      ensures Agree(g, s, 0, EdgePregs(g, b, s, |g[s].phis|, env), asg, Parallel(g, asg)(b, s, regs))
    {
      EdgeAgrees(g, b, s, env, asg, regs);
    }
  }

  // ----- whole runs -----------------------------------------------------------------------------------

  /** Registers that agree at the start of a path agree at its end. */
  lemma {:induction false} RunsAgree(g: Cfg, path: seq<Pt>, env: PregState, asg: Assignment, regs: RegState, ops: Ops,
                                     edge: EdgeCode)
    requires Separates(g, asg) && EdgesAgree(g, asg, edge) && IsPath(g, path)
    requires Agree(g, path[0].b, path[0].k, env, asg, regs)
    ensures var p := path[|path| - 1];
            Agree(g, p.b, p.k, RunPregs(g, path, env, ops), asg, RunRegs(g, path, asg, regs, ops, edge))
    decreases |path|
  {
    hide Separates, Agree, StepPregs, StepRegs, EdgePregs, EdgesAgree;
    var n := |path| - 1;
    if n > 0 {
      PathPrefix(g, path);
      RunsAgree(g, path[..n], env, asg, regs, ops, edge);
      var p, q := path[n - 1], path[n];
      var env', regs' := RunPregs(g, path[..n], env, ops), RunRegs(g, path[..n], asg, regs, ops, edge);
      if p.k < |g[p.b].ops| {
        OpAgrees(g, p.b, p.k, env', asg, regs', ops);
      } else {
        EdgeAt(g, p.b, q.b, env', asg, regs', edge);
      }
    }
  }

  lemma EdgeAt(g: Cfg, b: nat, s: nat, env: PregState, asg: Assignment, regs: RegState, edge: EdgeCode)
    requires EdgesAgree(g, asg, edge) && b < |g| && s in g[b].succs && s < |g|
    requires Agree(g, b, |g[b].ops|, env, asg, regs)
    ensures Agree(g, s, 0, EdgePregs(g, b, s, |g[s].phis|, env), asg, edge(b, s, regs))
  {
  }

  /** From every point, along every path, for every meaning: registers that agree go on agreeing. */
  ghost predicate Simulates(g: Cfg, asg: Assignment, edge: EdgeCode) {
    forall path: seq<Pt>, env: PregState, regs: RegState, ops: Ops ::
      IsPath(g, path) && Agree(g, path[0].b, path[0].k, env, asg, regs) ==>
        var p := path[|path| - 1];
        Agree(g, p.b, p.k, RunPregs(g, path, env, ops), asg, RunRegs(g, path, asg, regs, ops, edge))
  }

  lemma SimulatesIff(g: Cfg, asg: Assignment, edge: EdgeCode)
    requires Linked(g) && Separates(g, asg)
    ensures Simulates(g, asg, edge) <==> EdgesAgree(g, asg, edge)
  {
    hide Separates, Agree, StepPregs, StepRegs, EdgePregs;
    if EdgesAgree(g, asg, edge) {
      hide EdgesAgree;
      forall path: seq<Pt>, env: PregState, regs: RegState, ops: Ops
        | IsPath(g, path) && Agree(g, path[0].b, path[0].k, env, asg, regs)
        ensures var p := path[|path| - 1];
                Agree(g, p.b, p.k, RunPregs(g, path, env, ops), asg, RunRegs(g, path, asg, regs, ops, edge))
      {
        RunsAgree(g, path, env, asg, regs, ops, edge);
      }
    }
    if Simulates(g, asg, edge) {
      forall b: nat, s: nat, env, regs | b < |g| && s in g[b].succs && s < |g| &&
           Agree(g, b, |g[b].ops|, env, asg, regs)
        ensures Agree(g, s, 0, EdgePregs(g, b, s, |g[s].phis|, env), asg, edge(b, s, regs))
      {
        EdgePath(g, b, s, env, asg, regs, (_, _) => [], edge);
      }
    }
  }

  /** An edge is a path of its own. */
  lemma EdgePath(g: Cfg, b: nat, s: nat, env: PregState, asg: Assignment, regs: RegState, ops: Ops, edge: EdgeCode)
    requires b < |g| && s in g[b].succs && s < |g|
    ensures var path := [Pt(b, |g[b].ops|), Pt(s, 0)];
            && IsPath(g, path) && RunPregs(g, path, env, ops) == EdgePregs(g, b, s, |g[s].phis|, env)
            && RunRegs(g, path, asg, regs, ops, edge) == edge(b, s, regs)
  {
    var path := [Pt(b, |g[b].ops|), Pt(s, 0)];
    assert Follows(g, path[0], path[1]) && path[..1] == [path[0]];
  }

  /** From the entry, whatever the registers hold at first. */
  ghost predicate Refines(g: Cfg, asg: Assignment, edge: EdgeCode) {
    forall path: seq<Pt>, regs: RegState, ops: Ops :: IsRun(g, path) ==>
      var p := path[|path| - 1];
      Agree(g, p.b, p.k, RunPregs(g, path, map[], ops), asg, RunRegs(g, path, asg, regs, ops, edge))
  }

  lemma SimulationRefines(g: Cfg, asg: Assignment, edge: EdgeCode)
    requires Simulates(g, asg, edge)
    ensures Refines(g, asg, edge)
  {
    forall path: seq<Pt>, regs: RegState, ops: Ops | IsRun(g, path)
      ensures var p := path[|path| - 1];
              Agree(g, p.b, p.k, RunPregs(g, path, map[], ops), asg, RunRegs(g, path, asg, regs, ops, edge))
    {
      assert Agree(g, 0, 0, map[], asg, regs);
    }
  }

  /** With parallel copies separate registers are enough. */
  lemma ParallelRefines(g: Cfg, asg: Assignment)
    requires WellFormed(g) && Strict(g) && Separates(g, asg) && OnlyNeeded(g, asg)
    ensures Simulates(g, asg, Parallel(g, asg)) && Refines(g, asg, Parallel(g, asg))
  {
    hide Separates, Strict, OnlyNeeded, EdgesAgree, Simulates;
    ParallelAgrees(g, asg);
    SimulatesIff(g, asg, Parallel(g, asg));
    SimulationRefines(g, asg, Parallel(g, asg));
  }

  /** Where the runs agree every instruction reads from registers what it reads from pseudo registers. */
  lemma ReadsAgree(g: Cfg, path: seq<Pt>, asg: Assignment, regs: RegState, ops: Ops, edge: EdgeCode, v: Value)
    requires Refines(g, asg, edge) && IsRun(g, path)
    requires var p := path[|path| - 1]; IsOp(g, p.b, p.k) && v in Uses(g[p.b].ops[p.k])
    requires v in RunPregs(g, path, map[], ops)
    ensures ReadReg(RunRegs(g, path, asg, regs, ops, edge), RegOf(asg, v)) == RunPregs(g, path, map[], ops)[v]
  {
    var p := path[|path| - 1];
    LiveOverOp(g, v, p.b, p.k);
  }
}
