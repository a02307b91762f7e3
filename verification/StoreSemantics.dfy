/** What a function body means before SSA: a store of variables, updated in place. */
module StoreSemantics {
  import opened Basics
  import opened Ir

  /** A value: scalar bits together with the fields or elements it is made of. */
  datatype Val = Val(bits: int, parts: map<int, Val>)

  const ZERO: Val := Val(0, map[])

  /** The meaning of operators, constant tables and calls, left open. */
  type Ops = (nat, seq<Val>) -> Val

  type Mem = map<Var, Val>

  function Component(v: Val, k: int): Val {
    if k in v.parts then v.parts[k] else ZERO
  }

  function WithComponent(v: Val, k: int, w: Val): Val {
    Val(v.bits, v.parts[k := w])
  }

  function Select(v: Val, ix: Index): Val {
    match ix case NoIndex => v case At(k) => Component(v, k)
  }

  function Read(mem: Mem, p: Place): Val {
    Select(if p.v in mem then mem[p.v] else ZERO, p.ix)
  }

  /** One update of the store: place `p` now holds `val`. */
  datatype Effect = Effect(p: Place, val: Val)

  function Apply(mem: Mem, eff: Effect): Mem {
    match eff.p.ix
    case NoIndex => mem[eff.p.v := eff.val]
    case At(k) => mem[eff.p.v := WithComponent(Read(mem, Whole(eff.p.v)), k, eff.val)]
  }

  function Eval(e: Expr, mem: Mem, ops: Ops): Val {
    match e
    case Leaf(_, op) => ops(op, [])
    case Node(_, op, l, r) => ops(op, [Eval(l, mem, ops), Eval(r, mem, ops)])
    case Load(_, p) => Read(mem, p)
    case LoadAt(_, v, sub) => Component(Read(mem, Whole(v)), Eval(sub, mem, ops).bits)
    case TableAt(_, table, sub) => ops(table, [Eval(sub, mem, ops)])
  }

  datatype Outcome = OutOfFuel | Next(mem: Mem) | Returned(mem: Mem, val: Val)

  /** Runs a statement; `fuel` bounds the iterations of each loop. */
  function Run(s: Stmt, mem: Mem, fuel: nat, ops: Ops): Outcome
    decreases fuel, s, 1
  {
    match s
    case Skip => Next(mem)
    case Seq(a, b) =>
      var r := Run(a, mem, fuel, ops);
      if r.Next? then Run(b, r.mem, fuel, ops) else r
    case Store(_, p, rhs) => Next(Apply(mem, Effect(p, Eval(rhs, mem, ops))))
    case StoreAt(_, v, sub, rhs) =>
      Next(Apply(mem, Effect(Place(v, At(Eval(sub, mem, ops).bits)), Eval(rhs, mem, ops))))
    case Call(_, callee, args, ret) =>
      var val := ops(callee, [Eval(args, mem, ops)]);
      Next(if ret.Some? then Apply(mem, Effect(Whole(ret.value), val)) else mem)
    case Retv(_, _, v) => Returned(mem, Read(mem, Whole(v)))
    case If(_, c, a, b) =>
      if Eval(c, mem, ops).bits != 0 then Run(a, mem, fuel, ops) else Run(b, mem, fuel, ops)
    case Loop(_, iv, i, _, _, _) =>
      RunLoop(s, Apply(mem, Effect(Whole(iv), Eval(i, mem, ops))), fuel, ops)
  }

  function RunLoop(s: Stmt, mem: Mem, fuel: nat, ops: Ops): Outcome
    requires s.Loop?
    decreases fuel, s, 0
  {
    if fuel == 0 then OutOfFuel
    else if Eval(s.cmp, mem, ops).bits == 0 then Next(mem)
    else
      var r := Run(s.body, mem, fuel, ops);
      if r.Next? then
        RunLoop(s, Apply(r.mem, Effect(Whole(s.iv), Eval(s.step, r.mem, ops))), fuel - 1, ops)
      else r
  }

  /** Binds the formals to the arguments, one after the other. */
  function Bind(formals: seq<Formal>, args: seq<Val>, mem: Mem): Mem
    requires |formals| == |args|
  {
    if formals == [] then mem
    else
      var n := |formals| - 1;
      Apply(Bind(formals[..n], args[..n], mem), Effect(Whole(formals[n].v), args[n]))
  }

  // ----- how an update is seen from another place ----------------------------

  /** What `q` holds after `eff`, given what it held before. */
  function Seen(q: Place, before: Val, eff: Effect): Val {
    if q.v != eff.p.v then before
    else match (q.ix, eff.p.ix)
      case (_, NoIndex) => Select(eff.val, q.ix)
      case (NoIndex, At(k)) => WithComponent(before, k, eff.val)
      case (At(j), At(k)) => if j == k then eff.val else before
  }

  lemma ReadAfterApply(mem: Mem, q: Place, eff: Effect)
    ensures Read(Apply(mem, eff), q) == Seen(q, Read(mem, q), eff)
  {
  }
}
