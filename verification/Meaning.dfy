/** Renaming preserves meaning: the SSA run and the store run agree on everything observable. */
module Meaning {
  import opened Basics
  import opened Ir
  import opened StoreSemantics
  import opened SsaTables
  import opened SsaSemantics
  import opened Plans

  /** The current version of every real symbol holds what the store holds for it. */
  ghost predicate Agree(syms: seq<Sym>, top: seq<nat>, mem: Mem, env: Env) {
    && |top| == |syms|
    && forall i :: 0 <= i < |syms| && syms[i].realOcc ==> Lookup(env, top[i]) == Read(mem, syms[i].place)
  }

  /** Versions below `n` are not redefined. */
  ghost predicate SameBelow(env: Env, env': Env, n: nat) {
    forall v: nat :: v < n ==> Lookup(env', v) == Lookup(env, v)
  }

  // ----- expressions ---------------------------------------------------------

  lemma {:induction false} EvalUnnamed(e: Expr, V: View, mem: Mem, env: Env, ops: Ops)
    requires Unnamed(ExprIds(e), V)
    ensures SsaEval(e, V, mem, env, ops) == Eval(e, mem, ops)
  {
    match e
    case Node(_, _, l, r) =>
      EvalUnnamed(l, V, mem, env, ops);
      EvalUnnamed(r, V, mem, env, ops);
    case LoadAt(_, _, sub) => EvalUnnamed(sub, V, mem, env, ops);
    case TableAt(_, _, sub) => EvalUnnamed(sub, V, mem, env, ops);
    case _ =>
  }

  lemma {:induction false} EvalAgrees(e: Expr, syms: seq<Sym>, P: Plan, V: View, top: seq<nat>,
                                      mem: Mem, env: Env, ops: Ops)
    requires ExprPlanned(e, syms, P) && UsesNamed(e, P, V, top) && Agree(syms, top, mem, env)
    ensures SsaEval(e, V, mem, env, ops) == Eval(e, mem, ops)
  {
    match e
    case Node(_, _, l, r) =>
      EvalAgrees(l, syms, P, V, top, mem, env, ops);
      EvalAgrees(r, syms, P, V, top, mem, env, ops);
    case LoadAt(_, _, sub) => EvalAgrees(sub, syms, P, V, top, mem, env, ops);
    case TableAt(_, _, sub) => EvalUnnamed(sub, V, mem, env, ops);
    case _ =>
  }

  // ----- definitions ---------------------------------------------------------

  /** Of different places exactly the related ones can be changed by a store to one of them. */
  lemma RelatedIff(syms: seq<Sym>, r: nat, d: nat)
    requires r < |syms| && d < |syms| && syms[r].place != syms[d].place
    ensures Related(syms, r, d) <==>
            exists mem, val :: Read(Apply(mem, Effect(syms[d].place, val)), syms[r].place) != Read(mem, syms[r].place)
  {
    var p, q, one := syms[d].place, syms[r].place, Val(1, map[]);
    if Related(syms, r, d) {
      var mem: Mem, val := map[], if q.ix.At? then Val(0, map[q.ix.k := one]) else one;
      ReadAfterApply(mem, q, Effect(p, val));
      assert Read(mem, q) == ZERO;
      if p.ix.At? {
        assert p.ix.k in Seen(q, ZERO, Effect(p, val)).parts;
      }
      assert Read(Apply(mem, Effect(p, val)), q) != Read(mem, q);
    } else {
      forall mem, val ensures Read(Apply(mem, Effect(p, val)), q) == Read(mem, q) {
        ReadAfterApply(mem, q, Effect(p, val));
      }
    }
  }

  /** The chi results agree with the updated store; everything older is untouched. */
  lemma {:induction false} ChiEnvIs(list: seq<Chi>, n: nat, syms: seq<Sym>, top: seq<nat>, next: nat,
                                    eff: Effect, env: Env)
    requires n <= |list| && Below(top, next) && |top| == |syms|
    requires forall k :: 0 <= k < |list| ==>
               list[k].sym < |top| && list[k].opnd == Some(top[list[k].sym]) && list[k].res == Some(next + k)
    ensures SameBelow(env, ChiEnv(list[..n], syms, eff, env), next)
    ensures forall k :: 0 <= k < n ==>
              Lookup(ChiEnv(list[..n], syms, eff, env), next + k)
              == Seen(syms[list[k].sym].place, Lookup(env, top[list[k].sym]), eff)
  {
    if n > 0 {
      ChiEnvIs(list, n - 1, syms, top, next, eff, env);
      assert list[..n][..n - 1] == list[..n - 1];
    }
  }

  /** `eff` can be seen only from `d` and the symbols related to it. */
  ghost predicate Covers(d: Place, eff: Effect) {
    eff.p.v == d.v && (d == eff.p || d.ix.NoIndex?)
  }

  /** What the directly defined version holds afterwards. */
  lemma DirectValue(id: nat, d: Place, eff: Effect, syms: seq<Sym>, P: Plan, V: View, at: Point, st: SsaState)
    requires StoreNamed(id, P, V, at) && |at.top| == |syms| && Below(at.top, at.next)
    ensures SameBelow(st.env, SsaDef(id, d, eff, V, syms, st).env, at.next)
    ensures Lookup(SsaDef(id, d, eff, V, syms, st).env, at.next) == Read(Apply(st.mem, eff), d)
  {
    var list := ListAt(V.chi, id);
    var env1 := st.env[VerOf(V, id) := Read(Apply(st.mem, eff), d)];
    ChiEnvIs(list, |list|, syms, Set(at.top, SymOf(P, id), at.next), at.next + 1, eff, env1);
    assert list[..|list|] == list;
  }

  /** What the version defined by chi `k` holds afterwards. */
  lemma ChiValue(id: nat, d: Place, eff: Effect, syms: seq<Sym>, P: Plan, V: View, at: Point, st: SsaState, k: nat)
    requires StoreNamed(id, P, V, at) && |at.top| == |syms| && Below(at.top, at.next)
    requires k < |ListAt(P.chi, id)| && ListAt(P.chi, id)[k] != SymOf(P, id)
    ensures ListAt(P.chi, id)[k] < |syms|
    ensures Lookup(SsaDef(id, d, eff, V, syms, st).env, at.next + 1 + k)
            == Seen(syms[ListAt(P.chi, id)[k]].place, Lookup(st.env, at.top[ListAt(P.chi, id)[k]]), eff)
  {
    var list := ListAt(V.chi, id);
    var env1 := st.env[VerOf(V, id) := Read(Apply(st.mem, eff), d)];
    ChiEnvIs(list, |list|, syms, Set(at.top, SymOf(P, id), at.next), at.next + 1, eff, env1);
    assert list[..|list|] == list;
    assert ChiSyms(list)[k] == list[k].sym;
  }

  /** A symbol that neither is `d` nor overlaps it does not see the effect. */
  lemma EffectUnseen(d: Place, eff: Effect, syms: seq<Sym>, sym: nat, i: nat, val: Val)
    requires DistinctPlaces(syms) && Covers(d, eff) && sym < |syms| && i < |syms| && i != sym
    requires syms[sym].place == d && syms[i].realOcc && i !in Relatives(syms, sym)
    ensures Seen(syms[i].place, val, eff) == val
  {
    assert syms[i].place != syms[sym].place;
  }

  /** The version of symbol `i` behind a definition: that of its chi, the new one, or the old one. */
  lemma VersionBehind(id: nat, P: Plan, at: Point, i: nat)
    requires NoDup(ListAt(P.chi, id)) && i < |at.top| && SymOf(P, id) !in ListAt(P.chi, id)
    ensures var top := AfterDef(id, P, at).top; var chis := ListAt(P.chi, id);
            && (forall k :: 0 <= k < |chis| && chis[k] == i ==> top[i] == at.next + 1 + k)
            && (i == SymOf(P, id) ==> top[i] == at.next)
            && (i !in chis && i != SymOf(P, id) ==> top[i] == at.top[i])
  {
    PushAllAt(ListAt(P.chi, id), Set(at.top, SymOf(P, id), at.next), at.next + 1);
  }

  lemma DefAgreesAt(id: nat, d: Place, eff: Effect, syms: seq<Sym>, P: Plan, V: View, at: Point, st: SsaState, i: nat)
    requires DistinctPlaces(syms) && DefPlanned(id, d, syms, P) && StoreNamed(id, P, V, at)
    requires Covers(d, eff) && Below(at.top, at.next) && Agree(syms, at.top, st.mem, st.env)
    requires i < |syms| && syms[i].realOcc
    ensures var r := SsaDef(id, d, eff, V, syms, st);
            Lookup(r.env, AfterDef(id, P, at).top[i]) == Read(r.mem, syms[i].place)
  {
    var sym := SymOf(P, id);
    var chis := ListAt(P.chi, id);
    assert sym !in Relatives(syms, sym) && sym !in Elems(chis);
    assert i in chis <==> i in Elems(chis);
    hide NoDup, Elems, StoreNamed, DistinctPlaces, Covers, Relatives, AfterDef, Apply, Seen, ChiEnv;
    ReadAfterApply(st.mem, syms[i].place, eff);
    VersionBehind(id, P, at, i);
    if i in chis {
      var k :| 0 <= k < |chis| && chis[k] == i;
      ChiValue(id, d, eff, syms, P, V, at, st, k);
    } else {
      DirectValue(id, d, eff, syms, P, V, at, st);
      if i != sym {
        EffectUnseen(d, eff, syms, sym, i, Read(st.mem, syms[i].place));
      }
    }
  }

  lemma DefAgrees(id: nat, d: Place, eff: Effect, syms: seq<Sym>, P: Plan, V: View, at: Point, st: SsaState)
    requires DistinctPlaces(syms) && DefPlanned(id, d, syms, P) && StoreNamed(id, P, V, at)
    requires Covers(d, eff) && Below(at.top, at.next) && Agree(syms, at.top, st.mem, st.env)
    ensures var r := SsaDef(id, d, eff, V, syms, st);
            Agree(syms, AfterDef(id, P, at).top, r.mem, r.env) && SameBelow(st.env, r.env, at.next)
  {
    DirectValue(id, d, eff, syms, P, V, at, st);
    forall i | 0 <= i < |syms| && syms[i].realOcc
      ensures Lookup(SsaDef(id, d, eff, V, syms, st).env, AfterDef(id, P, at).top[i])
              == Read(Apply(st.mem, eff), syms[i].place)
    {
      DefAgreesAt(id, d, eff, syms, P, V, at, st, i);
    }
  }

  // ----- merges --------------------------------------------------------------

  lemma {:induction false} PhiEnvIs(list: seq<Phi>, n: nat, k: nat, next: nat, env: Env)
    requires n <= |list|
    requires forall j :: 0 <= j < |list| ==> k < |list[j].opnd| && list[j].res == Some(next + j)
    ensures forall v: nat :: v < next ==> Lookup(PhiEnv(list[..n], k, env), v) == Lookup(env, v)
    ensures forall j :: 0 <= j < n ==>
              Lookup(PhiEnv(list[..n], k, env), next + j) == Lookup(env, OrZero(list[j].opnd[k]))
  {
    if n > 0 {
      PhiEnvIs(list, n - 1, k, next, env);
      assert list[..n][..n - 1] == list[..n - 1];
    }
  }

  lemma PhiValue(id: nat, k: nat, P: Plan, V: View, left: seq<nat>, right: seq<nat>, from: seq<nat>,
                 next: nat, env: Env, j: nat)
    requires PhisNamed(id, P, V, left, right, next) && j < |ListAt(P.phi, id)|
    requires k < 2 && from == (if k == 0 then left else right)
    ensures ListAt(P.phi, id)[j] < |from|
    ensures Lookup(PhiEnv(ListAt(V.phi, id), k, env), next + j) == Lookup(env, from[ListAt(P.phi, id)[j]])
  {
    var list := ListAt(V.phi, id);
    PhiEnvIs(list, |list|, k, next, env);
    assert list[..|list|] == list;
    assert PhiSyms(list)[j] == list[j].sym;
  }

  /** Copying versions `from` of the symbols of `phis` to the versions from `next` on keeps agreement. */
  lemma MergeAgrees(phis: seq<nat>, syms: seq<Sym>, from: seq<nat>, top: seq<nat>, next: nat,
                    mem: Mem, env: Env, env': Env)
    requires NoDup(phis) && |top| == |syms| && Below(top, next)
    requires Agree(syms, from, mem, env) && SameBelow(env, env', next)
    requires forall j :: 0 <= j < |phis| ==>
               phis[j] < |from| && Lookup(env', next + j) == Lookup(env, from[phis[j]])
    requires forall i :: 0 <= i < |syms| && i !in phis ==> from[i] == top[i]
    ensures Agree(syms, PushAll(phis, top, next), mem, env')
  {
    hide NoDup, PushAll, Read;
    forall i | 0 <= i < |syms| && syms[i].realOcc
      ensures Lookup(env', PushAll(phis, top, next)[i]) == Read(mem, syms[i].place)
    {
      if i in phis {
        var j :| 0 <= j < |phis| && phis[j] == i;
        PushAllIn(phis, top, next, j);
      } else {
        PushAllOut(phis, top, next, i);
      }
    }
  }

  /**
    Coming from edge `k` with current versions `from`: if every symbol without a
    phi has the version `top` gives it, then after the copies the phi results
    are current.
   */
  lemma PhiAgrees(id: nat, k: nat, syms: seq<Sym>, P: Plan, V: View, left: seq<nat>, right: seq<nat>,
                  from: seq<nat>, top: seq<nat>, next: nat, mem: Mem, env: Env)
    requires PhisNamed(id, P, V, left, right, next) && NoDup(ListAt(P.phi, id))
    requires k < 2 && from == (if k == 0 then left else right)
    requires Agree(syms, from, mem, env) && |top| == |syms| && Below(top, next)
    requires forall i :: 0 <= i < |syms| && i !in ListAt(P.phi, id) ==> from[i] == top[i]
    ensures var env' := PhiEnv(ListAt(V.phi, id), k, env);
            Agree(syms, PushAll(ListAt(P.phi, id), top, next), mem, env') && SameBelow(env, env', next)
  {
    var list := ListAt(V.phi, id);
    var phis := ListAt(P.phi, id);
    var env' := PhiEnv(list, k, env);
    assert SameBelow(env, env', next) by {
      PhiEnvIs(list, |list|, k, next, env);
      assert list[..|list|] == list;
    }
    forall j | 0 <= j < |phis|
      ensures phis[j] < |from| && Lookup(env', next + j) == Lookup(env, from[phis[j]])
    {
      PhiValue(id, k, P, V, left, right, from, next, env, j);
    }
    MergeAgrees(phis, syms, from, top, next, mem, env, env');
  }

  // ----- statements ----------------------------------------------------------

  /** Both runs end alike; `top` are the versions current at the end, versions below `n` are kept. */
  ghost predicate Matches(o: Outcome, r: SsaOutcome, syms: seq<Sym>, P: Plan, top: seq<nat>, env: Env, n: nat) {
    match o
    case OutOfFuel => r.SsaOutOfFuel?
    case Next(m) => r.SsaNext? && r.st.mem == m && Agree(syms, top, m, r.st.env) && SameBelow(env, r.st.env, n)
    case Returned(m, v) => r.SsaReturned? && r.mem == m && r.val == v && MusSeen(r.id, r.seen, syms, P, m)
  }

  /** The mu operands of the return hold what the store holds for their symbols. */
  ghost predicate MusSeen(id: nat, seen: seq<Val>, syms: seq<Sym>, P: Plan, mem: Mem) {
    && |seen| == |ListAt(P.mu, id)|
    && forall k :: 0 <= k < |seen| ==>
         ListAt(P.mu, id)[k] < |syms| && seen[k] == Read(mem, syms[ListAt(P.mu, id)[k]].place)
  }

  ghost predicate Ready(s: Stmt, syms: seq<Sym>, P: Plan, V: View, at: Point, st: SsaState) {
    && Planned(s, syms, P) && NoBareRoots(s) && Renamed(s, P, V, at)
    && Below(at.top, at.next) && Agree(syms, at.top, st.mem, st.env)
  }

  lemma {:induction false} Simulates(s: Stmt, syms: seq<Sym>, P: Plan, V: View, at: Point, st: SsaState,
                                     fuel: nat, ops: Ops)
    requires Ready(s, syms, P, V, at, st)
    ensures Matches(Run(s, st.mem, fuel, ops), SsaRun(s, V, syms, st, fuel, ops), syms, P,
                    After(s, P, at).top, st.env, at.next)
    decreases fuel, s, 1
  {
    match s
    case Skip =>
    case Seq(a, b) =>
      AfterBelow(a, P, at);
      Simulates(a, syms, P, V, at, st, fuel, ops);
      var r := SsaRun(a, V, syms, st, fuel, ops);
      if r.SsaNext? {
        Simulates(b, syms, P, V, After(a, P, at), r.st, fuel, ops);
      }
    case Store(_, _, _) => SimulatesDef(s, syms, P, V, at, st, fuel, ops);
    case StoreAt(_, _, _, _) => SimulatesDef(s, syms, P, V, at, st, fuel, ops);
    case Call(_, _, _, _) => SimulatesDef(s, syms, P, V, at, st, fuel, ops);
    case Retv(_, _, _) => SimulatesRetv(s, syms, P, V, at, st);
    case If(_, _, _, _) => SimulatesIf(s, syms, P, V, at, st, fuel, ops);
    case Loop(_, _, _, _, _, _) =>
      EntryAgrees(s, syms, P, V, at, st, ops);
      var s1 := SsaIvDef(s.init, s.iv, V, st, ops);
      SimulatesLoop(s, syms, P, V, at, SsaState(s1.mem, PhiEnv(ListAt(V.phi, s.id), 0, s1.env)), fuel, ops);
  }

  lemma SimulatesDef(s: Stmt, syms: seq<Sym>, P: Plan, V: View, at: Point, st: SsaState, fuel: nat, ops: Ops)
    requires s.Store? || s.StoreAt? || s.Call?
    requires Ready(s, syms, P, V, at, st)
    ensures Matches(Run(s, st.mem, fuel, ops), SsaRun(s, V, syms, st, fuel, ops), syms, P,
                    After(s, P, at).top, st.env, at.next)
  {
    match s
    case Store(id, p, rhs) =>
      EvalAgrees(rhs, syms, P, V, at.top, st.mem, st.env, ops);
      DefAgrees(id, p, Effect(p, Eval(rhs, st.mem, ops)), syms, P, V, at, st);
    case StoreAt(id, v, sub, rhs) =>
      EvalAgrees(rhs, syms, P, V, at.top, st.mem, st.env, ops);
      EvalAgrees(sub, syms, P, V, at.top, st.mem, st.env, ops);
      var p := Place(v, At(Eval(sub, st.mem, ops).bits));
      DefAgrees(id, Whole(v), Effect(p, Eval(rhs, st.mem, ops)), syms, P, V, at, st);
    case Call(id, callee, args, ret) =>
      EvalAgrees(args, syms, P, V, at.top, st.mem, st.env, ops);
      if ret.Some? {
        var val := ops(callee, [Eval(args, st.mem, ops)]);
        DefAgrees(id, Whole(ret.value), Effect(Whole(ret.value), val), syms, P, V, at, st);
      }
  }

  /** After the init and the copies of the preheader edge, the header versions are current. */
  lemma EntryAgrees(s: Stmt, syms: seq<Sym>, P: Plan, V: View, at: Point, st: SsaState, ops: Ops)
    requires s.Loop? && Ready(s, syms, P, V, at, st)
    ensures var r := SsaIvDef(s.init, s.iv, V, st, ops);
            var env' := PhiEnv(ListAt(V.phi, s.id), 0, r.env);
            && r.mem == Apply(st.mem, Effect(Whole(s.iv), Eval(s.init, st.mem, ops)))
            && Agree(syms, AtHeader(s, P, at).top, r.mem, env')
            && SameBelow(st.env, env', at.next)
  {
    IvAgrees(s.init, s.iv, syms, P, V, at, st, ops);
    var r := SsaIvDef(s.init, s.iv, V, st, ops);
    var topI := Set(at.top, SymOf(P, s.init.id), at.next);
    PhiAgrees(s.id, 0, syms, P, V, topI, AtBackEdge(s, P, at).top, topI, topI, at.next + 1, r.mem, r.env);
  }

  lemma {:induction false} SimulatesIf(s: Stmt, syms: seq<Sym>, P: Plan, V: View, at: Point, st: SsaState,
                                       fuel: nat, ops: Ops)
    requires s.If? && Ready(s, syms, P, V, at, st)
    ensures Matches(Run(s, st.mem, fuel, ops), SsaRun(s, V, syms, st, fuel, ops), syms, P,
                    After(s, P, at).top, st.env, at.next)
    decreases fuel, s, 0
  {
    var pa := After(s.thn, P, at);
    var p1 := Point(at.top, pa.next);
    var pb := After(s.els, P, p1);
    EvalAgrees(s.cond, syms, P, V, at.top, st.mem, st.env, ops);
    AfterBelow(s.thn, P, at);
    AfterBelow(s.els, P, p1);
    forall i | 0 <= i < |syms| && i !in ListAt(P.phi, s.id)
      ensures pa.top[i] == at.top[i] && pb.top[i] == at.top[i]
    {
      assert i !in Elems(ListAt(P.phi, s.id));
      UndefinedKept(s.thn, syms, P, at, i);
      UndefinedKept(s.els, syms, P, p1, i);
    }
    if Eval(s.cond, st.mem, ops).bits != 0 {
      Simulates(s.thn, syms, P, V, at, st, fuel, ops);
      var r := SsaRun(s.thn, V, syms, st, fuel, ops);
      if r.SsaNext? {
        PhiAgrees(s.id, 0, syms, P, V, pa.top, pb.top, pa.top, at.top, pb.next, r.st.mem, r.st.env);
      }
    } else {
      Simulates(s.els, syms, P, V, p1, st, fuel, ops);
      var r := SsaRun(s.els, V, syms, st, fuel, ops);
      if r.SsaNext? {
        PhiAgrees(s.id, 1, syms, P, V, pa.top, pb.top, pb.top, at.top, pb.next, r.st.mem, r.st.env);
      }
    }
  }

  /** Setting the induction variable: `e` names its uses at `at`, its root node the new version. */
  lemma IvAgrees(e: Expr, iv: Var, syms: seq<Sym>, P: Plan, V: View, at: Point, st: SsaState, ops: Ops)
    requires !BareLoad(e) && RootPlanned(e, iv, syms, P) && Relatives(syms, SymOf(P, e.id)) == {}
    requires DistinctPlaces(syms) && Below(at.top, at.next) && Agree(syms, at.top, st.mem, st.env)
    requires RootUsesNamed(e, P, V, at.top) && DefNamed(e.id, P, V, at.next, e.id)
    ensures var r := SsaIvDef(e, iv, V, st, ops);
            && r.mem == Apply(st.mem, Effect(Whole(iv), Eval(e, st.mem, ops)))
            && Agree(syms, Set(at.top, SymOf(P, e.id), at.next), r.mem, r.env)
            && SameBelow(st.env, r.env, at.next)
  {
    EvalAgrees(e, syms, P, V, at.top, st.mem, st.env, ops);
    var eff := Effect(Whole(iv), Eval(e, st.mem, ops));
    var sym := SymOf(P, e.id);
    var r := SsaIvDef(e, iv, V, st, ops);
    forall i | 0 <= i < |syms| && syms[i].realOcc
      ensures Lookup(r.env, Set(at.top, sym, at.next)[i]) == Read(r.mem, syms[i].place)
    {
      ReadAfterApply(st.mem, syms[i].place, eff);
      if i != sym {
        assert i !in Relatives(syms, sym);
      }
    }
  }

  /** From the header on: `at` is the point before the loop, the phis have been set. */
  lemma {:induction false} SimulatesLoop(s: Stmt, syms: seq<Sym>, P: Plan, V: View, at: Point, st: SsaState,
                                         fuel: nat, ops: Ops)
    requires s.Loop? && Planned(s, syms, P) && NoBareRoots(s) && Renamed(s, P, V, at)
    requires Below(at.top, at.next) && |at.top| == |syms|
    requires Agree(syms, AtHeader(s, P, at).top, st.mem, st.env)
    ensures Matches(RunLoop(s, st.mem, fuel, ops), SsaLoop(s, V, syms, st, fuel, ops), syms, P,
                    AtHeader(s, P, at).top, st.env, at.next)
    decreases fuel, s, 0
  {
    hide PhisNamed, Relatives, ExprPlanned, RootPlanned, DistinctPlaces, NoDup, Elems, Defs, DefNamed, UsesNamed,
         RootUsesNamed, NodeSymIs, MusSeen, PhiEnv, PushAll;
    var head := AtHeader(s, P, at);
    EvalAgrees(s.cmp, syms, P, V, head.top, st.mem, st.env, ops);
    if fuel > 0 && Eval(s.cmp, st.mem, ops).bits != 0 {
      HeaderBelow(s, P, at);
      Simulates(s.body, syms, P, V, head, st, fuel, ops);
      var r := SsaRun(s.body, V, syms, st, fuel, ops);
      if r.SsaNext? {
        BackEdgeAgrees(s, syms, P, V, at, r.st, ops);
        var s1 := SsaIvDef(s.step, s.iv, V, r.st, ops);
        var st2 := SsaState(s1.mem, PhiEnv(ListAt(V.phi, s.id), 1, s1.env));
        SimulatesLoop(s, syms, P, V, at, st2, fuel - 1, ops);
      }
    }
  }

  /** What a planned and renamed loop says about its header and its step. */
  lemma LoopFacts(s: Stmt, syms: seq<Sym>, P: Plan, V: View, at: Point)
    requires s.Loop? && Planned(s, syms, P) && Renamed(s, P, V, at) && Below(at.top, at.next)
    ensures SymOf(P, s.step.id) == SymOf(P, s.init.id) && Relatives(syms, SymOf(P, s.step.id)) == {}
    ensures RootPlanned(s.step, s.iv, syms, P) && DistinctPlaces(syms) && NoDup(ListAt(P.phi, s.id))
    ensures RootUsesNamed(s.step, P, V, After(s.body, P, AtHeader(s, P, at)).top)
    ensures DefNamed(s.step.id, P, V, After(s.body, P, AtHeader(s, P, at)).next, s.step.id)
    ensures PhisNamed(s.id, P, V, Set(at.top, SymOf(P, s.init.id), at.next), AtBackEdge(s, P, at).top, at.next + 1)
    ensures Below(Set(at.top, SymOf(P, s.init.id), at.next), at.next + 1)
  {
    assert syms[SymOf(P, s.step.id)].place == syms[SymOf(P, s.init.id)].place;
  }

  /** After the body, the step and the copies of the back edge, the header versions are current again. */
  lemma BackEdgeAgrees(s: Stmt, syms: seq<Sym>, P: Plan, V: View, at: Point, st: SsaState, ops: Ops)
    requires s.Loop? && Planned(s, syms, P) && NoBareRoots(s) && Renamed(s, P, V, at)
    requires Below(at.top, at.next) && |at.top| == |syms|
    requires Agree(syms, After(s.body, P, AtHeader(s, P, at)).top, st.mem, st.env)
    ensures var r := SsaIvDef(s.step, s.iv, V, st, ops);
            var env' := PhiEnv(ListAt(V.phi, s.id), 1, r.env);
            && r.mem == Apply(st.mem, Effect(Whole(s.iv), Eval(s.step, st.mem, ops)))
            && Agree(syms, AtHeader(s, P, at).top, r.mem, env')
            && SameBelow(st.env, env', at.next)
  {
    hide PhisNamed, Relatives, ExprPlanned, DistinctPlaces, NoDup, Elems, Defs, PushAll, PhiEnv, DefNamed, NodeSymIs,
         UsesNamed, MuChiPlanned, PhisPlanned, SsaEval, Apply, Below;
    LoopFacts(s, syms, P, V, at);
    var head := AtHeader(s, P, at);
    var end := After(s.body, P, head);
    HeaderBelow(s, P, at);
    AfterBelow(s.body, P, head);
    var iv := SymOf(P, s.init.id);
    IvAgrees(s.step, s.iv, syms, P, V, end, st, ops);
    var r := SsaIvDef(s.step, s.iv, V, st, ops);
    BackEdgeKept(s, syms, P, at);
    var topI := Set(at.top, iv, at.next);
    var back := AtBackEdge(s, P, at);
    PhiAgrees(s.id, 1, syms, P, V, topI, back.top, back.top, topI, at.next + 1, r.mem, r.env);
  }

  /** A symbol without a phi reaches the back edge with the version it had at the header. */
  lemma BackEdgeKept(s: Stmt, syms: seq<Sym>, P: Plan, at: Point)
    requires s.Loop? && Planned(s, syms, P)
    requires Below(at.top, at.next) && |at.top| == |syms|
    ensures |AtBackEdge(s, P, at).top| == |syms|
    ensures forall i :: 0 <= i < |syms| && i !in ListAt(P.phi, s.id) ==>
              AtBackEdge(s, P, at).top[i] == Set(at.top, SymOf(P, s.init.id), at.next)[i]
  {
    hide Relatives, ExprPlanned, RootPlanned, DistinctPlaces, NoDup, PushAll, Below;
    StepSym(s, syms, P);
    var topI := Set(at.top, SymOf(P, s.init.id), at.next);
    HeaderBelow(s, P, at);
    AfterBelow(s.body, P, AtHeader(s, P, at));
    forall i | 0 <= i < |syms| && i !in ListAt(P.phi, s.id)
      ensures AtBackEdge(s, P, at).top[i] == topI[i]
    {
      assert i !in Elems(ListAt(P.phi, s.id));
      PushAllOut(ListAt(P.phi, s.id), topI, at.next + 1, i);
      UndefinedKept(s.body, syms, P, AtHeader(s, P, at), i);
    }
  }

  lemma SimulatesRetv(s: Stmt, syms: seq<Sym>, P: Plan, V: View, at: Point, st: SsaState)
    requires s.Retv? && Ready(s, syms, P, V, at, st)
    ensures MusSeen(s.id, MuVals(ListAt(V.mu, s.id), st.env), syms, P, st.mem)
  {
    var list, mus := ListAt(V.mu, s.id), ListAt(P.mu, s.id);
    forall k | 0 <= k < |list|
      ensures mus[k] < |syms| && MuVals(list, st.env)[k] == Read(st.mem, syms[mus[k]].place)
    {
      assert MuSyms(list)[k] == list[k].sym;
      assert mus[k] in Elems(mus);
      assert mus[k] in {SymOf(P, s.kid)} + Relatives(syms, SymOf(P, s.kid));
    }
  }

  // ----- functions -----------------------------------------------------------

  lemma {:induction false} BindKeeps(formals: seq<Formal>, args: seq<Val>, mem: Mem, p: Place)
    requires |formals| == |args| && forall g :: g in formals ==> g.v != p.v
    ensures Read(Bind(formals, args, mem), p) == Read(mem, p)
  {
    if formals != [] {
      var n := |formals| - 1;
      assert formals[n] in formals;
      BindKeeps(formals[..n], args[..n], mem, p);
      ReadAfterApply(Bind(formals[..n], args[..n], mem), p, Effect(Whole(formals[n].v), args[n]));
    }
  }

  lemma {:induction false} EntryEnvIs(list: seq<Chi>, n: nat, syms: seq<Sym>, next: nat, mem: Mem, env: Env)
    requires n <= |list|
    requires forall k :: 0 <= k < |list| ==> list[k].sym < |syms| && list[k].res == Some(next + k)
    ensures SameBelow(env, EntryEnv(list[..n], syms, mem, env), next)
    ensures forall k :: 0 <= k < n ==>
              Lookup(EntryEnv(list[..n], syms, mem, env), next + k) == Read(mem, syms[list[k].sym].place)
  {
    if n > 0 {
      EntryEnvIs(list, n - 1, syms, next, mem, env);
      assert list[..n][..n - 1] == list[..n - 1];
    }
  }

  lemma ChiList(id: nat, P: Plan, V: View, top: seq<nat>, next: nat)
    requires ChisNamed(id, P, V, top, next)
    ensures |ListAt(V.chi, id)| == |ListAt(P.chi, id)|
    ensures forall k :: 0 <= k < |ListAt(V.chi, id)| ==>
              && ListAt(V.chi, id)[k].sym == ListAt(P.chi, id)[k] < |top|
              && ListAt(V.chi, id)[k].res == Some(next + k)
  {
    var list := ListAt(V.chi, id);
    assert forall k :: 0 <= k < |list| ==> ChiSyms(list)[k] == list[k].sym;
  }

  lemma EntryAgreesAt(f: Func, syms: seq<Sym>, P: Plan, V: View, args: seq<Val>, mem: Mem, i: nat)
    requires |args| == |f.formals| && EntryPlanned(f, syms, P)
    requires ChisNamed(f.id, P, V, ZeroPoint(|syms|).top, |syms|)
    requires i < |syms| && syms[i].realOcc
    ensures var mem1 := Bind(f.formals, args, mem);
            var env := EntryEnv(ListAt(V.chi, f.id), syms, mem1, ZeroEnv(syms, mem));
            Lookup(env, BodyPoint(f, P, |syms|).top[i]) == Read(mem1, syms[i].place)
  {
    hide FormalsPlanned, NoDup, HasVer, EntryEnv, Apply, Read;
    var list, chis, n := ListAt(V.chi, f.id), ListAt(P.chi, f.id), |syms|;
    ChiList(f.id, P, V, ZeroPoint(n).top, n);
    var mem1 := Bind(f.formals, args, mem);
    EntryEnvIs(list, |list|, syms, n, mem1, ZeroEnv(syms, mem));
    assert list[..|list|] == list;
    if i in chis {
      var k :| 0 <= k < |chis| && chis[k] == i;
      assert list[k].sym == i;
      PushAllIn(chis, ZeroPoint(n).top, n, k);
    } else {
      PushAllOut(chis, ZeroPoint(n).top, n, i);
      assert i !in Elems(chis);
      forall g | g in f.formals ensures g.v != syms[i].place.v {
        assert i !in FormalSyms(syms, f.formals);
      }
      BindKeeps(f.formals, args, mem, syms[i].place);
    }
  }

  /**
    Meaning preservation: whatever the arguments, the initial store, the operators
    and the fuel, the SSA form and the original body end alike, with the same
    store and the same returned value; the versions current at the end, and the
    mu operands of the return, hold what the store holds.
   */
  lemma MeaningPreserved(f: Func, syms: seq<Sym>, P: Plan, V: View, args: seq<Val>, mem: Mem, fuel: nat, ops: Ops)
    requires |args| == |f.formals|
    requires FuncPlanned(f, syms, P) && FuncRenamed(f, P, V, |syms|) && NoBareRoots(f.body)
    ensures Matches(RunFunc(f, args, mem, fuel, ops), SsaRunFunc(f, V, syms, args, mem, fuel, ops), syms, P,
                    After(f.body, P, BodyPoint(f, P, |syms|)).top,
                    EntryEnv(ListAt(V.chi, f.id), syms, Bind(f.formals, args, mem), ZeroEnv(syms, mem)),
                    BodyPoint(f, P, |syms|).next)
  {
    var at := BodyPoint(f, P, |syms|);
    var mem1 := Bind(f.formals, args, mem);
    var env := EntryEnv(ListAt(V.chi, f.id), syms, mem1, ZeroEnv(syms, mem));
    PushAllBelow(ListAt(P.chi, f.id), ZeroPoint(|syms|).top, |syms|);
    forall i | 0 <= i < |syms| && syms[i].realOcc
      ensures Lookup(env, at.top[i]) == Read(mem1, syms[i].place)
    {
      EntryAgreesAt(f, syms, P, V, args, mem, i);
    }
    Simulates(f.body, syms, P, V, at, SsaState(mem1, env), fuel, ops);
  }

  // ----- where it needs its condition -----------------------------------------

  /** Every load the traversal visits, loop roots included, carries the current version of its symbol. */
  ghost predicate EveryLoadNamed(s: Stmt, P: Plan, V: View, at: Point) {
    match s
    case Skip => true
    case Seq(a, b) => EveryLoadNamed(a, P, V, at) && EveryLoadNamed(b, P, V, After(a, P, at))
    case Store(_, _, rhs) => UsesNamed(rhs, P, V, at.top)
    case StoreAt(_, _, sub, rhs) => UsesNamed(rhs, P, V, at.top) && UsesNamed(sub, P, V, at.top)
    case Call(_, _, args, _) => UsesNamed(args, P, V, at.top)
    case Retv(_, kid, _) => UseNamed(kid, P, V, at.top)
    case If(_, c, a, b) =>
      && UsesNamed(c, P, V, at.top) && EveryLoadNamed(a, P, V, at)
      && EveryLoadNamed(b, P, V, Point(at.top, After(a, P, at).next))
    case Loop(_, _, i, c, st, b) =>
      var head := AtHeader(s, P, at);
      && UsesNamed(i, P, V, at.top) && UsesNamed(c, P, V, head.top)
      && EveryLoadNamed(b, P, V, head) && UsesNamed(st, P, V, After(b, P, head).top)
  }

  /** After renaming, loads keep their versions exactly when no loop starts or steps with a bare load. */
  lemma {:induction false} LoadsKeptIff(s: Stmt, P: Plan, V: View, at: Point)
    requires Renamed(s, P, V, at) && Below(at.top, at.next)
    ensures EveryLoadNamed(s, P, V, at) <==> NoBareRoots(s)
    decreases s
  {
    match s
    case Seq(a, b) =>
      AfterBelow(a, P, at);
      LoadsKeptIff(a, P, V, at);
      LoadsKeptIff(b, P, V, After(a, P, at));
    case If(_, _, a, b) =>
      AfterBelow(a, P, at);
      LoadsKeptIff(a, P, V, at);
      LoadsKeptIff(b, P, V, Point(at.top, After(a, P, at).next));
    case Loop(_, _, i, _, st, b) =>
      var head := AtHeader(s, P, at);
      HeaderBelow(s, P, at);
      AfterBelow(b, P, head);
      LoadsKeptIff(b, P, V, head);
    case _ =>
  }
}
