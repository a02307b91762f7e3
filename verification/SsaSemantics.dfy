/**
  What the SSA form means: loads read the value of the version they are
  annotated with, phis copy the operand of the edge taken, chis update the
  value of their operand.  The store is still carried along, for the loads the
  builder leaves without a version and for the old value of a variable that is
  stored to at an unknown subscript (that definition has no operand).
 */
module SsaSemantics {
  import opened Basics
  import opened Ir
  import opened StoreSemantics
  import opened SsaTables

  /** The value each version was last given. */
  type Env = map<nat, Val>

  function Lookup(env: Env, ver: nat): Val {
    if ver in env then env[ver] else ZERO
  }

  function OrZero(o: Option<nat>): nat {
    if o.Some? then o.value else 0
  }

  function VerOf(V: View, id: nat): nat {
    if id in V.nodeVer then V.nodeVer[id] else 0
  }

  function LoadVer(id: nat, p: Place, V: View, mem: Mem, env: Env): Val {
    if id in V.nodeVer then Lookup(env, V.nodeVer[id]) else Read(mem, p)
  }

  function SsaEval(e: Expr, V: View, mem: Mem, env: Env, ops: Ops): Val {
    match e
    case Leaf(_, op) => ops(op, [])
    case Node(_, op, l, r) => ops(op, [SsaEval(l, V, mem, env, ops), SsaEval(r, V, mem, env, ops)])
    case Load(id, p) => LoadVer(id, p, V, mem, env)
    case LoadAt(id, v, sub) =>
      Component(LoadVer(id, Whole(v), V, mem, env), SsaEval(sub, V, mem, env, ops).bits)
    case TableAt(_, table, sub) => ops(table, [SsaEval(sub, V, mem, env, ops)])
  }

  /** Each chi result is its operand with the effect of the statement applied. */
  function ChiEnv(list: seq<Chi>, syms: seq<Sym>, eff: Effect, env: Env): Env {
    if list == [] then env
    else
      var n := |list| - 1;
      var c := list[n];
      var e := ChiEnv(list[..n], syms, eff, env);
      var q := if c.sym < |syms| then syms[c.sym].place else eff.p;
      e[OrZero(c.res) := Seen(q, Lookup(e, OrZero(c.opnd)), eff)]
  }

  /** All phis of a list read their operand `k` before any result is set. */
  function PhiEnv(list: seq<Phi>, k: nat, env: Env): Env {
    if list == [] then env
    else
      var n := |list| - 1;
      var p := list[n];
      var opnd := if k < |p.opnd| then OrZero(p.opnd[k]) else 0;
      PhiEnv(list[..n], k, env)[OrZero(p.res) := Lookup(env, opnd)]
  }

  datatype SsaState = SsaState(mem: Mem, env: Env)

  /** A definition of place `d` at node `id` whose run-time effect is `eff`. */
  function SsaDef(id: nat, d: Place, eff: Effect, V: View, syms: seq<Sym>, st: SsaState): SsaState {
    var mem := Apply(st.mem, eff);
    SsaState(mem, ChiEnv(ListAt(V.chi, id), syms, eff, st.env[VerOf(V, id) := Read(mem, d)]))
  }

  datatype SsaOutcome =
    | SsaOutOfFuel
    | SsaNext(st: SsaState)
    | SsaReturned(mem: Mem, val: Val, id: nat, seen: seq<Val>)

  function MuVals(list: seq<Mu>, env: Env): seq<Val> {
    seq(|list|, i requires 0 <= i < |list| => Lookup(env, OrZero(list[i].opnd)))
  }

  function SsaRun(s: Stmt, V: View, syms: seq<Sym>, st: SsaState, fuel: nat, ops: Ops): SsaOutcome
    decreases fuel, s, 1
  {
    match s
    case Skip => SsaNext(st)
    case Seq(a, b) =>
      var r := SsaRun(a, V, syms, st, fuel, ops);
      if r.SsaNext? then SsaRun(b, V, syms, r.st, fuel, ops) else r
    case Store(id, p, rhs) =>
      SsaNext(SsaDef(id, p, Effect(p, SsaEval(rhs, V, st.mem, st.env, ops)), V, syms, st))
    case StoreAt(id, v, sub, rhs) =>
      var p := Place(v, At(SsaEval(sub, V, st.mem, st.env, ops).bits));
      SsaNext(SsaDef(id, Whole(v), Effect(p, SsaEval(rhs, V, st.mem, st.env, ops)), V, syms, st))
    case Call(id, callee, args, ret) =>
      var val := ops(callee, [SsaEval(args, V, st.mem, st.env, ops)]);
      if ret.None? then SsaNext(st)
      else SsaNext(SsaDef(id, Whole(ret.value), Effect(Whole(ret.value), val), V, syms, st))
    case Retv(id, kid, v) =>
      SsaReturned(st.mem, LoadVer(kid, Whole(v), V, st.mem, st.env), id, MuVals(ListAt(V.mu, id), st.env))
    case If(id, c, a, b) =>
      var taken := SsaEval(c, V, st.mem, st.env, ops).bits != 0;
      var r := if taken then SsaRun(a, V, syms, st, fuel, ops) else SsaRun(b, V, syms, st, fuel, ops);
      if r.SsaNext? then
        SsaNext(SsaState(r.st.mem, PhiEnv(ListAt(V.phi, id), if taken then 0 else 1, r.st.env)))
      else r
    case Loop(id, iv, i, _, _, _) =>
      var s1 := SsaIvDef(i, iv, V, st, ops);
      SsaLoop(s, V, syms, SsaState(s1.mem, PhiEnv(ListAt(V.phi, id), 0, s1.env)), fuel, ops)
  }

  /** Sets the induction variable to the value of `e`, whose root node defines the version. */
  function SsaIvDef(e: Expr, iv: Var, V: View, st: SsaState, ops: Ops): SsaState {
    var val := SsaEval(e, V, st.mem, st.env, ops);
    SsaState(Apply(st.mem, Effect(Whole(iv), val)), st.env[VerOf(V, e.id) := val])
  }

  function SsaLoop(s: Stmt, V: View, syms: seq<Sym>, st: SsaState, fuel: nat, ops: Ops): SsaOutcome
    requires s.Loop?
    decreases fuel, s, 0
  {
    if fuel == 0 then SsaOutOfFuel
    else if SsaEval(s.cmp, V, st.mem, st.env, ops).bits == 0 then SsaNext(st)
    else
      var r := SsaRun(s.body, V, syms, st, fuel, ops);
      if r.SsaNext? then
        var s1 := SsaIvDef(s.step, s.iv, V, r.st, ops);
        SsaLoop(s, V, syms, SsaState(s1.mem, PhiEnv(ListAt(V.phi, s.id), 1, s1.env)), fuel - 1, ops)
      else r
  }

  // ----- functions -----------------------------------------------------------

  function RunFunc(f: Func, args: seq<Val>, mem: Mem, fuel: nat, ops: Ops): Outcome
    requires |args| == |f.formals|
  {
    Run(f.body, Bind(f.formals, args, mem), fuel, ops)
  }

  /** Before the entry every zero version (version `i` for symbol `i`) holds what the store holds. */
  function ZeroEnv(syms: seq<Sym>, mem: Mem): Env {
    map i: nat | i < |syms| :: Read(mem, syms[i].place)
  }

  /** The entry chis take the values the formals were bound to. */
  function EntryEnv(list: seq<Chi>, syms: seq<Sym>, mem: Mem, env: Env): Env {
    if list == [] then env
    else
      var n := |list| - 1;
      var c := list[n];
      var val := if c.sym < |syms| then Read(mem, syms[c.sym].place) else ZERO;
      EntryEnv(list[..n], syms, mem, env)[OrZero(c.res) := val]
  }

  function SsaRunFunc(f: Func, V: View, syms: seq<Sym>, args: seq<Val>, mem: Mem, fuel: nat, ops: Ops): SsaOutcome
    requires |args| == |f.formals|
  {
    var mem1 := Bind(f.formals, args, mem);
    var env := EntryEnv(ListAt(V.chi, f.id), syms, mem1, ZeroEnv(syms, mem));
    SsaRun(f.body, V, syms, SsaState(mem1, env), fuel, ops)
  }
}
