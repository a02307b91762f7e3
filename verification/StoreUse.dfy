/**
  What the SSA run needs the store for.  A function that stores at no unknown
  subscript and loads nothing below a constant array runs on versions alone;
  one store at an unknown subscript is enough to lose the old array without it.
 */
module StoreUse {
  import opened Basics
  import opened Ir
  import opened StoreSemantics
  import opened SsaTables
  import opened SsaSemantics
  import opened Plans
  import opened Meaning

  predicate NoLoads(e: Expr) {
    match e
    case Leaf(_, _) => true
    case Node(_, _, l, r) => NoLoads(l) && NoLoads(r)
    case Load(_, _) => false
    case LoadAt(_, _, _) => false
    case TableAt(_, _, sub) => NoLoads(sub)
  }

  /** No load below the subscript of a constant array. */
  predicate TablesClean(e: Expr) {
    match e
    case Leaf(_, _) => true
    case Node(_, _, l, r) => TablesClean(l) && TablesClean(r)
    case Load(_, _) => true
    case LoadAt(_, _, sub) => TablesClean(sub)
    case TableAt(_, _, sub) => NoLoads(sub)
  }

  predicate VersionsOnly(s: Stmt) {
    match s
    case Skip => true
    case Seq(a, b) => VersionsOnly(a) && VersionsOnly(b)
    case Store(_, _, rhs) => TablesClean(rhs)
    case StoreAt(_, _, _, _) => false
    case Call(_, _, args, _) => TablesClean(args)
    case Retv(_, _, _) => true
    case If(_, c, a, b) => TablesClean(c) && VersionsOnly(a) && VersionsOnly(b)
    case Loop(_, _, i, c, st, b) => TablesClean(i) && TablesClean(c) && TablesClean(st) && VersionsOnly(b)
  }

  // ----- annotated loads --------------------------------------------------------

  ghost predicate Annotated(e: Expr, V: View) {
    match e
    case Leaf(_, _) => true
    case Node(_, _, l, r) => Annotated(l, V) && Annotated(r, V)
    case Load(id, _) => id in V.nodeVer
    case LoadAt(id, _, sub) => id in V.nodeVer && Annotated(sub, V)
    case TableAt(_, _, _) => true
  }

  ghost predicate AllAnnotated(s: Stmt, V: View) {
    match s
    case Skip => true
    case Seq(a, b) => AllAnnotated(a, V) && AllAnnotated(b, V)
    case Store(_, _, rhs) => Annotated(rhs, V)
    case StoreAt(_, _, sub, rhs) => Annotated(sub, V) && Annotated(rhs, V)
    case Call(_, _, args, _) => Annotated(args, V)
    case Retv(_, kid, _) => kid in V.nodeVer
    case If(_, c, a, b) => Annotated(c, V) && AllAnnotated(a, V) && AllAnnotated(b, V)
    case Loop(_, _, i, c, st, b) => Annotated(i, V) && Annotated(c, V) && Annotated(st, V) && AllAnnotated(b, V)
  }

  lemma {:induction false} NamedAnnotated(e: Expr, P: Plan, V: View, top: seq<nat>)
    requires UsesNamed(e, P, V, top)
    ensures Annotated(e, V)
  {
    match e
    case Node(_, _, l, r) => NamedAnnotated(l, P, V, top); NamedAnnotated(r, P, V, top);
    case LoadAt(_, _, sub) => NamedAnnotated(sub, P, V, top);
    case _ =>
  }

  lemma RootAnnotated(e: Expr, P: Plan, V: View, top: seq<nat>)
    requires RootUsesNamed(e, P, V, top) && e.id in V.nodeVer
    ensures Annotated(e, V)
  {
    match e
    case Load(_, _) =>
    case LoadAt(_, _, sub) => NamedAnnotated(sub, P, V, top);
    case _ => NamedAnnotated(e, P, V, top);
  }

  lemma {:induction false} RenamedAnnotated(s: Stmt, P: Plan, V: View, at: Point)
    requires Renamed(s, P, V, at)
    ensures AllAnnotated(s, V)
    decreases s
  {
    hide StoreNamed, PhisNamed, MusNamed, AfterDef, AfterPhis;
    match s
    case Skip =>
    case Seq(a, b) =>
      RenamedAnnotated(a, P, V, at);
      RenamedAnnotated(b, P, V, After(a, P, at));
    case Store(_, _, rhs) => NamedAnnotated(rhs, P, V, at.top);
    case StoreAt(_, _, sub, rhs) =>
      NamedAnnotated(rhs, P, V, at.top);
      NamedAnnotated(sub, P, V, at.top);
    case Call(_, _, args, _) => NamedAnnotated(args, P, V, at.top);
    case Retv(_, _, _) =>
    case If(_, c, a, b) =>
      NamedAnnotated(c, P, V, at.top);
      RenamedAnnotated(a, P, V, at);
      RenamedAnnotated(b, P, V, Point(at.top, After(a, P, at).next));
    case Loop(_, _, i, c, st, b) =>
      var head := AtHeader(s, P, at);
      RootAnnotated(i, P, V, at.top);
      NamedAnnotated(c, P, V, head.top);
      RenamedAnnotated(b, P, V, head);
      RootAnnotated(st, P, V, After(b, P, head).top);
  }

  // ----- runs that do not look at the store ------------------------------------------

  lemma {:induction false} NothingRead(e: Expr, V: View, mem: Mem, mem': Mem, env: Env, ops: Ops)
    requires NoLoads(e)
    ensures SsaEval(e, V, mem, env, ops) == SsaEval(e, V, mem', env, ops)
  {
    match e
    case Leaf(_, _) =>
    case Node(_, _, l, r) => NothingRead(l, V, mem, mem', env, ops); NothingRead(r, V, mem, mem', env, ops);
    case TableAt(_, _, sub) => NothingRead(sub, V, mem, mem', env, ops);
  }

  lemma {:induction false} EvalUnread(e: Expr, V: View, mem: Mem, mem': Mem, env: Env, ops: Ops)
    requires Annotated(e, V) && TablesClean(e)
    ensures SsaEval(e, V, mem, env, ops) == SsaEval(e, V, mem', env, ops)
  {
    match e
    case Node(_, _, l, r) => EvalUnread(l, V, mem, mem', env, ops); EvalUnread(r, V, mem, mem', env, ops);
    case LoadAt(_, _, sub) => EvalUnread(sub, V, mem, mem', env, ops);
    case TableAt(_, _, sub) => NothingRead(sub, V, mem, mem', env, ops);
    case _ =>
  }

  /** The two outcomes differ in the store they carry at most. */
  ghost predicate SameVersions(o: SsaOutcome, p: SsaOutcome) {
    match o
    case SsaOutOfFuel => p.SsaOutOfFuel?
    case SsaNext(st) => p.SsaNext? && p.st.env == st.env
    case SsaReturned(_, val, id, seen) => p.SsaReturned? && p.val == val && p.id == id && p.seen == seen
  }

  lemma DefUnread(id: nat, d: Place, val: Val, V: View, syms: seq<Sym>, mem: Mem, mem': Mem, env: Env)
    ensures SsaDef(id, d, Effect(d, val), V, syms, SsaState(mem, env)).env
            == SsaDef(id, d, Effect(d, val), V, syms, SsaState(mem', env)).env
  {
    ReadAfterApply(mem, d, Effect(d, val));
    ReadAfterApply(mem', d, Effect(d, val));
  }

  /** The outcome and the values of the versions do not depend on the carried store. */
  lemma {:induction false} StoreUnread(s: Stmt, V: View, syms: seq<Sym>, mem: Mem, mem': Mem, env: Env, fuel: nat,
                                       ops: Ops)
    requires AllAnnotated(s, V) && VersionsOnly(s)
    ensures SameVersions(SsaRun(s, V, syms, SsaState(mem, env), fuel, ops),
                         SsaRun(s, V, syms, SsaState(mem', env), fuel, ops))
    decreases fuel, s, 1
  {
    match s
    case Skip =>
    case Seq(a, b) =>
      StoreUnread(a, V, syms, mem, mem', env, fuel, ops);
      var r := SsaRun(a, V, syms, SsaState(mem, env), fuel, ops);
      var r' := SsaRun(a, V, syms, SsaState(mem', env), fuel, ops);
      if r.SsaNext? {
        StoreUnread(b, V, syms, r.st.mem, r'.st.mem, r.st.env, fuel, ops);
      }
    case Store(id, p, rhs) =>
      EvalUnread(rhs, V, mem, mem', env, ops);
      DefUnread(id, p, SsaEval(rhs, V, mem, env, ops), V, syms, mem, mem', env);
    case Call(id, callee, args, ret) =>
      EvalUnread(args, V, mem, mem', env, ops);
      if ret.Some? {
        DefUnread(id, Whole(ret.value), ops(callee, [SsaEval(args, V, mem, env, ops)]), V, syms, mem, mem', env);
      }
    case Retv(_, _, _) =>
    case If(_, c, a, b) =>
      EvalUnread(c, V, mem, mem', env, ops);
      StoreUnread(a, V, syms, mem, mem', env, fuel, ops);
      StoreUnread(b, V, syms, mem, mem', env, fuel, ops);
    case Loop(id, iv, i, _, _, _) =>
      EvalUnread(i, V, mem, mem', env, ops);
      var s1, s2 := SsaIvDef(i, iv, V, SsaState(mem, env), ops), SsaIvDef(i, iv, V, SsaState(mem', env), ops);
      LoopUnread(s, V, syms, s1.mem, s2.mem, PhiEnv(ListAt(V.phi, id), 0, s1.env), fuel, ops);
  }

  lemma {:induction false} LoopUnread(s: Stmt, V: View, syms: seq<Sym>, mem: Mem, mem': Mem, env: Env, fuel: nat,
                                      ops: Ops)
    requires s.Loop? && AllAnnotated(s, V) && VersionsOnly(s)
    ensures SameVersions(SsaLoop(s, V, syms, SsaState(mem, env), fuel, ops),
                         SsaLoop(s, V, syms, SsaState(mem', env), fuel, ops))
    decreases fuel, s, 0
  {
    EvalUnread(s.cmp, V, mem, mem', env, ops);
    if fuel > 0 && SsaEval(s.cmp, V, mem, env, ops).bits != 0 {
      StoreUnread(s.body, V, syms, mem, mem', env, fuel, ops);
      var r := SsaRun(s.body, V, syms, SsaState(mem, env), fuel, ops);
      var r' := SsaRun(s.body, V, syms, SsaState(mem', env), fuel, ops);
      if r.SsaNext? {
        EvalUnread(s.step, V, r.st.mem, r'.st.mem, r.st.env, ops);
        var s1, s2 := SsaIvDef(s.step, s.iv, V, r.st, ops), SsaIvDef(s.step, s.iv, V, r'.st, ops);
        LoopUnread(s, V, syms, s1.mem, s2.mem, PhiEnv(ListAt(V.phi, s.id), 1, s1.env), fuel - 1, ops);
      }
    }
  }

  /** A renamed function of this kind runs on its versions alone: any store will do. */
  lemma FuncStoreUnread(f: Func, P: Plan, V: View, syms: seq<Sym>, n: nat, env: Env, mem: Mem, mem': Mem, fuel: nat,
                        ops: Ops)
    requires FuncRenamed(f, P, V, n) && VersionsOnly(f.body)
    ensures SameVersions(SsaRun(f.body, V, syms, SsaState(mem, env), fuel, ops),
                         SsaRun(f.body, V, syms, SsaState(mem', env), fuel, ops))
  {
    RenamedAnnotated(f.body, P, V, BodyPoint(f, P, n));
    StoreUnread(f.body, V, syms, mem, mem', env, fuel, ops);
  }

  // ----- a store at an unknown subscript -----------------------------------------------

  const A := Var(Datum, 0)

  /** a[f()] := g(); return a */
  const PATCH := Func(0, [], Seq(PATCH_STORE, PATCH_BACK))

  const PATCH_STORE := StoreAt(1, A, Leaf(2, 0), Leaf(3, 1))
  const PATCH_BACK := Retv(4, 5, A)

  /** Every operator gives 0. */
  function Zeros(): Ops {
    (op: nat, args: seq<Val>) => ZERO
  }

  const OLD := Val(0, map[1 := Val(7, map[])])

  lemma PatchKeepsOld(mem: Mem)
    requires A in mem && mem[A] == OLD
    ensures var r := RunFunc(PATCH, [], mem, 0, Zeros()); r.Returned? && 1 in r.val.parts && r.val.parts[1].bits == 7
  {
    assert Bind([], [], mem) == mem;
  }

  /** The return loads the version the store defines. */
  lemma PatchVersion(syms: seq<Sym>, P: Plan, V: View, at: Point)
    requires Planned(PATCH.body, syms, P) && Renamed(PATCH.body, P, V, at) && |at.top| == |syms|
    ensures StoreNamed(1, P, V, at) && 5 in V.nodeVer && V.nodeVer[5] == at.next
  {
    assert Renamed(PATCH_STORE, P, V, at) && Renamed(PATCH_BACK, P, V, After(PATCH_STORE, P, at));
    assert MuChiPlanned(PATCH_STORE, syms, P) && MuChiPlanned(PATCH_BACK, syms, P);
    var sym := SymOf(P, 1);
    assert sym == SymOf(P, 5);
    assert sym !in Relatives(syms, sym) && sym !in Elems(ListAt(P.chi, 1));
    VersionBehind(1, P, at, sym);
  }

  /** What the SSA form returns: the stored-to array as the carried store has it. */
  lemma PatchReturns(syms: seq<Sym>, P: Plan, V: View, mem: Mem, env: Env)
    requires FuncPlanned(PATCH, syms, P) && FuncRenamed(PATCH, P, V, |syms|)
    ensures var r := SsaRun(PATCH.body, V, syms, SsaState(mem, env), 0, Zeros());
            r.SsaReturned? && r.val == Read(Apply(mem, Effect(Place(A, At(0)), ZERO)), Whole(A))
  {
    hide Renamed, Planned, ChisNamed, Relatives, EntryPlanned, PushAll, ChiEnv, Apply, StoreNamed;
    var at, st, eff := BodyPoint(PATCH, P, |syms|), SsaState(mem, env), Effect(Place(A, At(0)), ZERO);
    PushAllBelow(ListAt(P.chi, PATCH.id), ZeroPoint(|syms|).top, |syms|);
    PatchVersion(syms, P, V, at);
    DirectValue(1, Whole(A), eff, syms, P, V, at, st);
    assert SsaRun(PATCH_STORE, V, syms, st, 0, Zeros()) == SsaNext(SsaDef(1, Whole(A), eff, V, syms, st));
  }

  /** From the same versions, but without the store, the old elements of the array are lost. */
  lemma PatchLosesOld(syms: seq<Sym>, P: Plan, V: View, mem: Mem, env: Env)
    requires FuncPlanned(PATCH, syms, P) && FuncRenamed(PATCH, P, V, |syms|) && A in mem && mem[A] == OLD
    ensures var held := SsaRun(PATCH.body, V, syms, SsaState(mem, env), 0, Zeros());
            var lost := SsaRun(PATCH.body, V, syms, SsaState(map[], env), 0, Zeros());
            && held.SsaReturned? && 1 in held.val.parts && held.val.parts[1].bits == 7
            && lost.SsaReturned? && 1 !in lost.val.parts
            && !SameVersions(held, lost)
  {
    PatchReturns(syms, P, V, mem, env);
    PatchReturns(syms, P, V, map[], env);
    hide FuncPlanned, FuncRenamed, SsaRun;
  }
}
