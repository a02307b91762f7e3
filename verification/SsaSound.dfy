/**
  What a success of the verifier rules out.  Tables that pass, and whose loads
  carry the versions current before them (the one thing it does not check),
  mean what the function means, however their versions are numbered.  And where
  the results are given no other operands pass.
 */
module SsaSound {
  import opened Basics
  import opened Ir
  import opened StoreSemantics
  import opened SsaTables
  import opened SsaContainers
  import opened SsaSemantics
  import opened Plans
  import opened Meaning
  import opened Renaming
  import opened SsaChecks
  import D = Dominance

  /** Every visited load, loop roots included, carries the version the tables make current before it. */
  ghost predicate LoadsCurrent(s: Stmt, P: Plan, V: View, top: seq<nat>) {
    match s
    case Skip => true
    case Seq(a, b) => LoadsCurrent(a, P, V, top) && LoadsCurrent(b, P, V, Behind(a, P, V, top))
    case Store(_, _, rhs) => UsesNamed(rhs, P, V, top)
    case StoreAt(_, _, sub, rhs) => UsesNamed(rhs, P, V, top) && UsesNamed(sub, P, V, top)
    case Call(_, _, args, _) => UsesNamed(args, P, V, top)
    case Retv(_, kid, _) => UseNamed(kid, P, V, top)
    case If(id, c, a, b) =>
      && UsesNamed(c, P, V, top) && LoadsCurrent(a, P, V, top)
      && LoadsCurrent(b, P, V, BehindBranch(id, a, P, V, top))
    case Loop(_, _, i, c, st, b) =>
      var head := Header(s, P, V, top);
      && UsesNamed(i, P, V, top) && UsesNamed(c, P, V, head)
      && LoadsCurrent(b, P, V, head) && UsesNamed(st, P, V, Behind(b, P, V, head))
  }

  // ----- versions of one symbol are not versions of another ---------------------------

  lemma TypedSet(V: View, top: seq<nat>, sym: nat, ver: nat)
    requires Typed(V, top) && VersionOf(V.vers, Some(ver), sym)
    ensures Typed(V, Set(top, sym, ver))
  {
  }

  /** The values of all versions but those of `d` are the same. */
  ghost predicate SameBut(V: View, env: Env, env': Env, d: seq<nat>) {
    forall v: nat :: v < |V.vers| && V.vers[v].sym !in d ==> Lookup(env', v) == Lookup(env, v)
  }

  /** After the first `n` results of a list of symbols are set. */
  ghost predicate SetUpTo(V: View, list: seq<nat>, n: nat, top: seq<nat>, cur: seq<nat>, env: Env, env': Env)
    requires n <= |list|
  {
    && |cur| == |top| && Typed(V, cur) && SameBut(V, env, env', list[..n])
    && forall i :: 0 <= i < |top| && i !in list[..n] ==> cur[i] == top[i]
  }

  /** The first `n` symbols of a list have the given values. */
  ghost predicate ValuesAre(list: seq<nat>, n: nat, cur: seq<nat>, env: Env, want: seq<Val>)
    requires n <= |list|
  {
    n <= |want| && forall k :: 0 <= k < n ==> list[k] < |cur| && Lookup(env, cur[list[k]]) == want[k]
  }

  /** One more symbol gets its result. */
  lemma SetNext(V: View, list: seq<nat>, n: nat, top: seq<nat>, cur: seq<nat>, env: Env, env': Env, ver: nat,
                want: seq<Val>)
    requires n < |list| && n < |want| && NoDup(list) && list[n] < |top| && Typed(V, top)
    requires SetUpTo(V, list, n, top, cur, env, env') && ValuesAre(list, n, cur, env', want)
    requires VersionOf(V.vers, Some(ver), list[n])
    ensures SetUpTo(V, list, n + 1, top, Set(cur, list[n], ver), env, env'[ver := want[n]])
    ensures ValuesAre(list, n + 1, Set(cur, list[n], ver), env'[ver := want[n]], want)
  {
    TypedSet(V, cur, list[n], ver);
    assert list[..n + 1] == list[..n] + [list[n]];
  }

  /** The next symbol still has its version, and that its value. */
  lemma NotYetSet(V: View, list: seq<nat>, n: nat, top: seq<nat>, cur: seq<nat>, env: Env, env': Env)
    requires n < |list| && NoDup(list) && list[n] < |top| && Typed(V, top) && SetUpTo(V, list, n, top, cur, env, env')
    ensures |cur| == |top| && cur[list[n]] == top[list[n]] && Lookup(env', top[list[n]]) == Lookup(env, top[list[n]])
  {
    assert list[n] !in list[..n];
  }

  // ----- definitions --------------------------------------------------------------------

  function ChiWants(list: seq<Chi>, syms: seq<Sym>, top: seq<nat>, eff: Effect, env: Env): (r: seq<Val>)
    requires |top| == |syms|
    ensures |r| == |list|
  {
    seq(|list|, k requires 0 <= k < |list| =>
      var i := list[k].sym; if i < |syms| then Seen(syms[i].place, Lookup(env, top[i]), eff) else ZERO)
  }

  /** Each chi result is its operand with the effect applied, for any numbering that passes. */
  lemma {:induction false} ChiResults(id: nat, n: nat, syms: seq<Sym>, V: View, top: seq<nat>, eff: Effect, env: Env)
    requires n <= |ListAt(V.chi, id)| && NoDup(ChiSyms(ListAt(V.chi, id)))
    requires ChisChecked(id, V, top) && Typed(V, top) && |top| == |syms|
    ensures var list := ListAt(V.chi, id); var cur, e := BehindChis(list[..n], top), ChiEnv(list[..n], syms, eff, env);
            && SetUpTo(V, ChiSyms(list), n, top, cur, env, e)
            && ValuesAre(ChiSyms(list), n, cur, e, ChiWants(list, syms, top, eff, env))
  {
    var list := ListAt(V.chi, id);
    if n > 0 {
      hide SetUpTo, ValuesAre, Typed, VersionOf, NoDup, Set, Seen;
      var k := n - 1;
      ChiResults(id, k, syms, V, top, eff, env);
      assert list[..n][..k] == list[..k];
      var c, cur, e := list[k], BehindChis(list[..k], top), ChiEnv(list[..k], syms, eff, env);
      assert ChiChecked(id, k, c, V, cur);
      ChiSymsAt(list, k);
      NotYetSet(V, ChiSyms(list), k, top, cur, env, e);
      SetNext(V, ChiSyms(list), k, top, cur, env, e, c.res.value, ChiWants(list, syms, top, eff, env));
    } else {
      assert list[..0] == [] && ChiSyms(list)[..0] == [];
    }
  }

  lemma DirectSound(id: nat, P: Plan, V: View, top: seq<nat>, env: Env, val: Val)
    requires DefChecked(id, P, V, |top|) && Typed(V, top)
    ensures var sym, cur, e := SymOf(P, id), BehindDef(id, P, V, top), env[VerOf(V, id) := val];
            && sym < |top| && Typed(V, cur) && |cur| == |top| && Lookup(e, cur[sym]) == val
            && forall i :: 0 <= i < |top| && i != sym ==> cur[i] == top[i] && Lookup(e, cur[i]) == Lookup(env, top[i])
  {
  }

  lemma StoreSoundAt(id: nat, d: Place, eff: Effect, syms: seq<Sym>, P: Plan, V: View, top: seq<nat>, st: SsaState,
                     i: nat)
    requires DistinctPlaces(syms) && DefPlanned(id, d, syms, P) && FitsAt(P, V, id) && StoreChecked(id, P, V, top)
    requires Typed(V, top) && Covers(d, eff) && Agree(syms, top, st.mem, st.env)
    requires i < |syms| && syms[i].realOcc
    ensures var r := SsaDef(id, d, eff, V, syms, st);
            Lookup(r.env, BehindStore(id, P, V, top)[i]) == Read(r.mem, syms[i].place)
  {
    var sym, list, val := SymOf(P, id), ListAt(V.chi, id), Read(Apply(st.mem, eff), d);
    var top1, env1 := BehindDef(id, P, V, top), st.env[VerOf(V, id) := val];
    DirectSound(id, P, V, top, st.env, val);
    ChiResults(id, |list|, syms, V, top1, eff, env1);
    assert list[..|list|] == list && ChiSyms(list)[..|list|] == ChiSyms(list);
    assert sym !in Relatives(syms, sym) && forall j :: j in ChiSyms(list) <==> j in Relatives(syms, sym) by {
      assert Elems(ChiSyms(list)) == Relatives(syms, sym);
      assert forall j :: j in ChiSyms(list) <==> j in Elems(ChiSyms(list));
    }
    hide NoDup, Elems, Typed, DistinctPlaces, Covers, Relatives, Apply, Seen, ChiEnv, BehindChis, DefChecked,
         ChisChecked, BehindDef, DefPlanned;
    ReadAfterApply(st.mem, syms[i].place, eff);
    if i in ChiSyms(list) {
      var k :| 0 <= k < |list| && ChiSyms(list)[k] == i;
      assert list[k].sym == i;
    } else {
      assert BehindStore(id, P, V, top)[i] == top1[i];
      assert VersionOf(V.vers, Some(top1[i]), i) by {
        assert Typed(V, top1);
        TypedAt(V, top1, i);
      }
      if i != sym {
        EffectUnseen(d, eff, syms, sym, i, Read(st.mem, syms[i].place));
      }
    }
  }

  lemma TypedAt(V: View, top: seq<nat>, i: nat)
    requires Typed(V, top) && i < |top|
    ensures VersionOf(V.vers, Some(top[i]), i)
  {
  }

  lemma StoreSound(id: nat, d: Place, eff: Effect, syms: seq<Sym>, P: Plan, V: View, top: seq<nat>, st: SsaState)
    requires DistinctPlaces(syms) && DefPlanned(id, d, syms, P) && FitsAt(P, V, id) && StoreChecked(id, P, V, top)
    requires Typed(V, top) && Covers(d, eff) && Agree(syms, top, st.mem, st.env)
    ensures var r := SsaDef(id, d, eff, V, syms, st); Agree(syms, BehindStore(id, P, V, top), r.mem, r.env)
  {
    hide StoreChecked, DefPlanned, Typed, DistinctPlaces, Covers, BehindStore;
    forall i | 0 <= i < |syms| && syms[i].realOcc
      ensures var r := SsaDef(id, d, eff, V, syms, st);
              Lookup(r.env, BehindStore(id, P, V, top)[i]) == Read(r.mem, syms[i].place)
    {
      StoreSoundAt(id, d, eff, syms, P, V, top, st, i);
    }
  }

  // ----- joins ----------------------------------------------------------------------------

  function PhiWants(list: seq<Phi>, from: seq<nat>, env: Env): (r: seq<Val>)
    ensures |r| == |list|
  {
    seq(|list|, j requires 0 <= j < |list| => if list[j].sym < |from| then Lookup(env, from[list[j].sym]) else ZERO)
  }

  lemma {:induction false} PhiResults(id: nat, n: nat, k: nat, V: View, from: seq<nat>, top: seq<nat>, env: Env)
    requires n <= |ListAt(V.phi, id)| && NoDup(PhiSyms(ListAt(V.phi, id))) && k < 2
    requires PhisChecked(id, V, |top|) && OpndsChecked(id, k, V, from) && Typed(V, top) && |from| == |top|
    ensures var list := ListAt(V.phi, id); var cur, e := BehindPhis(list[..n], top), PhiEnv(list[..n], k, env);
            && SetUpTo(V, PhiSyms(list), n, top, cur, env, e)
            && ValuesAre(PhiSyms(list), n, cur, e, PhiWants(list, from, env))
  {
    var list := ListAt(V.phi, id);
    if n > 0 {
      hide SetUpTo, ValuesAre, Typed, VersionOf, NoDup, Set;
      var j := n - 1;
      PhiResults(id, j, k, V, from, top, env);
      assert list[..n][..j] == list[..j];
      var p, cur, e := list[j], BehindPhis(list[..j], top), PhiEnv(list[..j], k, env);
      assert PhiChecked(id, j, p, V, |top|) && OpndChecked(p, k, V, from);
      PhiSymsAt(list, j);
      SetNext(V, PhiSyms(list), j, top, cur, env, e, p.res.value, PhiWants(list, from, env));
    } else {
      assert list[..0] == [] && PhiSyms(list)[..0] == [];
    }
  }

  /** Coming from edge `k`, where symbols without a phi have the versions of `top`, the phi results are current. */
  lemma JoinSound(id: nat, k: nat, syms: seq<Sym>, V: View, from: seq<nat>, top: seq<nat>, mem: Mem, env: Env)
    requires NoDup(PhiSyms(ListAt(V.phi, id))) && k < 2
    requires PhisChecked(id, V, |top|) && OpndsChecked(id, k, V, from) && Typed(V, top) && |from| == |top|
    requires Agree(syms, from, mem, env)
    requires forall i :: 0 <= i < |top| && i !in PhiSyms(ListAt(V.phi, id)) ==> from[i] == top[i]
    ensures Agree(syms, BehindPhis(ListAt(V.phi, id), top), mem, PhiEnv(ListAt(V.phi, id), k, env))
  {
    var list := ListAt(V.phi, id);
    PhiResults(id, |list|, k, V, from, top, env);
    assert list[..|list|] == list && PhiSyms(list)[..|list|] == PhiSyms(list);
    hide NoDup, PhisChecked, OpndsChecked, BehindPhis, PhiEnv, Read;
    forall i | 0 <= i < |syms| && syms[i].realOcc
      ensures Lookup(PhiEnv(list, k, env), BehindPhis(list, top)[i]) == Read(mem, syms[i].place)
    {
      if i in PhiSyms(list) {
        var j :| 0 <= j < |list| && PhiSyms(list)[j] == i;
        assert list[j].sym == i;
      }
    }
  }

  // ----- what a statement leaves alone -------------------------------------------------------

  lemma {:induction false} OutOfChis(list: seq<Chi>, top: seq<nat>, i: nat)
    requires i < |top| && i !in ChiSyms(list)
    ensures BehindChis(list, top)[i] == top[i]
  {
    if list != [] {
      var n := |list| - 1;
      assert ChiSyms(list)[n] == list[n].sym;
      assert forall k :: 0 <= k < n ==> ChiSyms(list[..n])[k] == ChiSyms(list)[k];
      OutOfChis(list[..n], top, i);
    }
  }

  lemma {:induction false} OutOfPhis(list: seq<Phi>, top: seq<nat>, i: nat)
    requires i < |top| && i !in PhiSyms(list)
    ensures BehindPhis(list, top)[i] == top[i]
  {
    if list != [] {
      var n := |list| - 1;
      assert PhiSyms(list)[n] == list[n].sym;
      assert forall k :: 0 <= k < n ==> PhiSyms(list[..n])[k] == PhiSyms(list)[k];
      OutOfPhis(list[..n], top, i);
    }
  }

  lemma StoreKeeps(id: nat, d: Place, syms: seq<Sym>, P: Plan, V: View, top: seq<nat>, i: nat)
    requires DefPlanned(id, d, syms, P) && FitsAt(P, V, id) && i < |top|
    requires i != SymOf(P, id) && i !in Relatives(syms, SymOf(P, id))
    ensures BehindStore(id, P, V, top)[i] == top[i]
  {
    assert i !in Elems(ListAt(P.chi, id));
    OutOfChis(ListAt(V.chi, id), BehindDef(id, P, V, top), i);
  }

  /** A symbol a statement does not define keeps its version. */
  lemma {:induction false} NotDefinedKept(s: Stmt, syms: seq<Sym>, P: Plan, V: View, top: seq<nat>, i: nat)
    requires Planned(s, syms, P) && Fits(P, V) && i < |top| && i !in Defs(s, syms, P)
    ensures Behind(s, P, V, top)[i] == top[i]
    decreases s
  {
    hide DefPlanned, BehindStore, DistinctPlaces, NoDup, FitsAt, ExprPlanned, BehindPhis, BehindDef, Relatives;
    match s
    case Seq(a, b) =>
      NotDefinedKept(a, syms, P, V, top, i);
      NotDefinedKept(b, syms, P, V, Behind(a, P, V, top), i);
    case Store(id, p, _) =>
      assert FitsAt(P, V, id);
      StoreKeeps(id, p, syms, P, V, top, i);
    case StoreAt(id, v, _, _) =>
      assert FitsAt(P, V, id);
      StoreKeeps(id, Whole(v), syms, P, V, top, i);
    case Call(id, _, _, ret) =>
      if ret.Some? {
        assert FitsAt(P, V, id);
        StoreKeeps(id, Whole(ret.value), syms, P, V, top, i);
      }
    case If(id, _, a, b) =>
      NoPhiFor(s, syms, P, V, i);
      var top1 := BehindBranch(id, a, P, V, top);
      NotDefinedKept(a, syms, P, V, top, i);
      NotDefinedKept(b, syms, P, V, top1, i);
      OutOfPhis(ListAt(V.phi, id), BehindBranch(id, b, P, V, top1), i);
    case Loop(id, _, init, _, _, b) =>
      NoPhiFor(s, syms, P, V, i);
      HeaderKeeps(s, syms, P, V, top, i);
      var head := Header(s, P, V, top);
      NotDefinedKept(b, syms, P, V, head, i);
      StepKeeps(s, syms, P, V, Behind(b, P, V, head), i);
    case _ =>
  }

  lemma NoPhiFor(s: Stmt, syms: seq<Sym>, P: Plan, V: View, i: nat)
    requires (s.If? || s.Loop?) && Planned(s, syms, P) && Fits(P, V)
    ensures i in PhiSyms(ListAt(V.phi, s.id)) <==> i in Defs(s, syms, P)
    ensures NoDup(PhiSyms(ListAt(V.phi, s.id)))
  {
    assert FitsAt(P, V, s.id);
    assert i in ListAt(P.phi, s.id) <==> i in Elems(ListAt(P.phi, s.id));
  }

  lemma HeaderKeeps(s: Stmt, syms: seq<Sym>, P: Plan, V: View, top: seq<nat>, i: nat)
    requires s.Loop? && Planned(s, syms, P) && Fits(P, V) && i < |top| && i !in Defs(s, syms, P)
    ensures Header(s, P, V, top)[i] == BehindDef(s.init.id, P, V, top)[i] == top[i]
  {
    NoPhiFor(s, syms, P, V, i);
    OutOfPhis(ListAt(V.phi, s.id), BehindDef(s.init.id, P, V, top), i);
  }

  lemma StepKeeps(s: Stmt, syms: seq<Sym>, P: Plan, V: View, top: seq<nat>, i: nat)
    requires s.Loop? && Planned(s, syms, P) && i < |top| && i !in Defs(s, syms, P)
    ensures BehindDef(s.step.id, P, V, top)[i] == top[i]
  {
    StepSym(s, syms, P);
  }

  /** Popping the marks of an `if` brings back all that its branches define. */
  lemma BranchBack(s: Stmt, b: Stmt, syms: seq<Sym>, P: Plan, V: View, top: seq<nat>)
    requires s.If? && (b == s.thn || b == s.els) && Planned(s, syms, P) && Fits(P, V)
    ensures BehindBranch(s.id, b, P, V, top) == top
    ensures forall i :: 0 <= i < |top| && i !in PhiSyms(ListAt(V.phi, s.id)) ==> Behind(b, P, V, top)[i] == top[i]
  {
    hide NoDup, ExprPlanned, DistinctPlaces, Relatives;
    var r := BehindBranch(s.id, b, P, V, top);
    forall i | 0 <= i < |top| && i !in PhiSyms(ListAt(V.phi, s.id)) ensures Behind(b, P, V, top)[i] == top[i] {
      NoPhiFor(s, syms, P, V, i);
      NotDefinedKept(b, syms, P, V, top, i);
    }
    assert forall i :: 0 <= i < |top| ==> r[i] == top[i];
  }

  /** Popping the marks of a loop brings back the versions of its header. */
  lemma LoopBack(s: Stmt, syms: seq<Sym>, P: Plan, V: View, top: seq<nat>)
    requires s.Loop? && Planned(s, syms, P) && Fits(P, V)
    ensures Behind(s, P, V, top) == Header(s, P, V, top)
    ensures forall i :: 0 <= i < |top| && i !in PhiSyms(ListAt(V.phi, s.id)) ==>
              BackEdge(s, P, V, Header(s, P, V, top))[i] == BehindDef(s.init.id, P, V, top)[i]
  {
    hide NoDup, ExprPlanned, DistinctPlaces, Relatives, BehindDef, BehindPhis, RootPlanned;
    var head := Header(s, P, V, top);
    forall i | 0 <= i < |top| && i !in PhiSyms(ListAt(V.phi, s.id))
      ensures BackEdge(s, P, V, head)[i] == head[i] == BehindDef(s.init.id, P, V, top)[i]
    {
      NoPhiFor(s, syms, P, V, i);
      HeaderKeeps(s, syms, P, V, top, i);
      NotDefinedKept(s.body, syms, P, V, head, i);
      StepKeeps(s, syms, P, V, Behind(s.body, P, V, head), i);
    }
    assert forall i :: 0 <= i < |top| ==> Behind(s, P, V, top)[i] == head[i];
  }

  // ----- statements ----------------------------------------------------------------------------

  /** Tables that pass, are complete by the plan, and have current loads; `top` agrees with the store. */
  ghost predicate Sound(s: Stmt, syms: seq<Sym>, P: Plan, V: View, top: seq<nat>) {
    && Planned(s, syms, P) && Fits(P, V) && NoBareRoots(s) && Checked(s, P, V, top) && LoadsCurrent(s, P, V, top)
    && Typed(V, top) && |top| == |syms|
  }

  lemma StoreTyped(id: nat, P: Plan, V: View, top: seq<nat>)
    requires StoreChecked(id, P, V, top) && Typed(V, top)
    ensures Typed(V, BehindStore(id, P, V, top))
  {
    var list := ListAt(V.chi, id);
    ChisTyped(id, |list|, V, BehindDef(id, P, V, top));
    assert list[..|list|] == list;
  }

  lemma {:induction false} ChisTyped(id: nat, n: nat, V: View, top: seq<nat>)
    requires n <= |ListAt(V.chi, id)| && ChisChecked(id, V, top) && Typed(V, top)
    ensures Typed(V, BehindChis(ListAt(V.chi, id)[..n], top))
  {
    var list := ListAt(V.chi, id);
    if n > 0 {
      ChisTyped(id, n - 1, V, top);
      assert list[..n][..n - 1] == list[..n - 1];
      assert ChiChecked(id, n - 1, list[n - 1], V, BehindChis(list[..n - 1], top));
    }
  }

  lemma {:induction false} PhisTyped(id: nat, n: nat, V: View, top: seq<nat>)
    requires n <= |ListAt(V.phi, id)| && PhisChecked(id, V, |top|) && Typed(V, top)
    ensures Typed(V, BehindPhis(ListAt(V.phi, id)[..n], top))
  {
    var list := ListAt(V.phi, id);
    if n > 0 {
      PhisTyped(id, n - 1, V, top);
      assert list[..n][..n - 1] == list[..n - 1];
      assert PhiChecked(id, n - 1, list[n - 1], V, |top|);
    }
  }

  lemma AllPhisTyped(id: nat, V: View, top: seq<nat>)
    requires PhisChecked(id, V, |top|) && Typed(V, top)
    ensures Typed(V, BehindPhis(ListAt(V.phi, id), top))
  {
    var list := ListAt(V.phi, id);
    PhisTyped(id, |list|, V, top);
    assert list[..|list|] == list;
  }

  lemma HeaderTyped(s: Stmt, P: Plan, V: View, top: seq<nat>)
    requires s.Loop? && HeaderChecked(s, P, V, top) && Typed(V, top)
    ensures Typed(V, Header(s, P, V, top)) && Typed(V, BehindDef(s.init.id, P, V, top))
  {
    AllPhisTyped(s.id, V, BehindDef(s.init.id, P, V, top));
  }

  /** Where the plan is complete a branch of an `if` starts from the versions before it. */
  lemma IfSound(s: Stmt, syms: seq<Sym>, P: Plan, V: View, top: seq<nat>)
    requires s.If? && Sound(s, syms, P, V, top)
    ensures Sound(s.thn, syms, P, V, top) && Sound(s.els, syms, P, V, top)
    ensures OpndsChecked(s.id, 0, V, Behind(s.thn, P, V, top)) && OpndsChecked(s.id, 1, V, Behind(s.els, P, V, top))
    ensures PhisChecked(s.id, V, |top|) && Behind(s, P, V, top) == BehindPhis(ListAt(V.phi, s.id), top)
    ensures UsesNamed(s.cond, P, V, top) && ExprPlanned(s.cond, syms, P)
  {
    BranchBack(s, s.thn, syms, P, V, top);
    BranchBack(s, s.els, syms, P, V, top);
    IfParts(s, syms, P);
    hide Planned, UsesTyped, UsesNamed, PhisChecked, OpndsChecked, Typed, BehindPhis, MuChiPlanned, PhisPlanned;
    assert BranchChecked(s.id, s.thn, 0, P, V, top);
    assert BranchChecked(s.id, s.els, 1, P, V, BehindBranch(s.id, s.thn, P, V, top));
  }

  lemma IfParts(s: Stmt, syms: seq<Sym>, P: Plan)
    requires s.If? && Planned(s, syms, P)
    ensures Planned(s.thn, syms, P) && Planned(s.els, syms, P) && ExprPlanned(s.cond, syms, P)
  {
  }

  /** Header and body of a loop; the body ends at the back edge. */
  lemma LoopSound(s: Stmt, syms: seq<Sym>, P: Plan, V: View, top: seq<nat>)
    requires s.Loop? && Sound(s, syms, P, V, top)
    ensures var head := Header(s, P, V, top);
            && HeaderChecked(s, P, V, top) && BodyChecked(s, P, V, head)
            && Sound(s.body, syms, P, V, head) && UsesNamed(s.init, P, V, top) && UsesNamed(s.cmp, P, V, head)
            && UsesNamed(s.step, P, V, Behind(s.body, P, V, head)) && ExprPlanned(s.cmp, syms, P)
            && RootPlanned(s.init, s.iv, syms, P) && RootPlanned(s.step, s.iv, syms, P)
            && Relatives(syms, SymOf(P, s.init.id)) == {} && SymOf(P, s.step.id) == SymOf(P, s.init.id)
            && DistinctPlaces(syms) && !BareLoad(s.init) && !BareLoad(s.step)
  {
    HeaderTyped(s, P, V, top);
    StepSym(s, syms, P);
  }

  lemma {:induction false} CheckedTyped(s: Stmt, syms: seq<Sym>, P: Plan, V: View, top: seq<nat>)
    requires Sound(s, syms, P, V, top)
    ensures Typed(V, Behind(s, P, V, top))
    decreases s
  {
    hide Typed, BehindStore, StoreChecked, BehindPhis, Planned, UsesNamed, UsesTyped, PhisChecked, HeaderChecked,
         Header, BehindBranch, BranchChecked, BodyChecked;
    match s
    case Seq(a, b) =>
      SeqSound(s, syms, P, V, top);
      CheckedTyped(b, syms, P, V, Behind(a, P, V, top));
    case Store(id, _, _) => StoreTyped(id, P, V, top);
    case StoreAt(id, _, _, _) => StoreTyped(id, P, V, top);
    case Call(id, _, _, ret) =>
      if ret.Some? {
        StoreTyped(id, P, V, top);
      }
    case If(id, _, _, _) =>
      IfSound(s, syms, P, V, top);
      AllPhisTyped(id, V, top);
    case Loop(_, _, _, _, _, _) =>
      LoopSound(s, syms, P, V, top);
      LoopBack(s, syms, P, V, top);
      HeaderTyped(s, P, V, top);
    case _ =>
  }

  lemma {:induction false} SeqSound(s: Stmt, syms: seq<Sym>, P: Plan, V: View, top: seq<nat>)
    requires s.Seq? && Sound(s, syms, P, V, top)
    ensures Sound(s.first, syms, P, V, top) && Sound(s.second, syms, P, V, Behind(s.first, P, V, top))
    ensures Behind(s, P, V, top) == Behind(s.second, P, V, Behind(s.first, P, V, top))
    decreases s, 0
  {
    hide Typed, UsesNamed, Fits, MuChiPlanned, PhisPlanned, DistinctPlaces;
    assert Sound(s.first, syms, P, V, top) by {
      SeqPlanned(s, syms, P);
    }
    SeqPlanned(s, syms, P);
    CheckedTyped(s.first, syms, P, V, top);
  }

  lemma SeqPlanned(s: Stmt, syms: seq<Sym>, P: Plan)
    requires s.Seq? && Planned(s, syms, P)
    ensures Planned(s.first, syms, P) && Planned(s.second, syms, P)
  {
  }

  lemma IvSound(e: Expr, iv: Var, syms: seq<Sym>, P: Plan, V: View, top: seq<nat>, st: SsaState, ops: Ops)
    requires !BareLoad(e) && RootPlanned(e, iv, syms, P) && Relatives(syms, SymOf(P, e.id)) == {}
    requires DistinctPlaces(syms) && Typed(V, top) && Agree(syms, top, st.mem, st.env)
    requires UsesNamed(e, P, V, top) && DefChecked(e.id, P, V, |top|)
    ensures var r := SsaIvDef(e, iv, V, st, ops);
            && r.mem == Apply(st.mem, Effect(Whole(iv), Eval(e, st.mem, ops)))
            && Agree(syms, BehindDef(e.id, P, V, top), r.mem, r.env)
  {
    EvalAgrees(e, syms, P, V, top, st.mem, st.env, ops);
    var eff := Effect(Whole(iv), Eval(e, st.mem, ops));
    var sym := SymOf(P, e.id);
    DirectSound(e.id, P, V, top, st.env, eff.val);
    hide BehindDef, DefChecked, Typed, Apply, Relatives, DistinctPlaces, UsesNamed;
    forall i | 0 <= i < |syms| && syms[i].realOcc
      ensures Lookup(st.env[VerOf(V, e.id) := eff.val], BehindDef(e.id, P, V, top)[i])
              == Read(Apply(st.mem, eff), syms[i].place)
    {
      ReadAfterApply(st.mem, syms[i].place, eff);
      if i != sym {
        EffectUnseen(Whole(iv), eff, syms, sym, i, Read(st.mem, syms[i].place));
      }
    }
  }

  /** Statement by statement, both forms end alike. */
  lemma {:induction false} VerifiedSimulates(s: Stmt, syms: seq<Sym>, P: Plan, V: View, top: seq<nat>, st: SsaState,
                                             fuel: nat, ops: Ops)
    requires Sound(s, syms, P, V, top) && Agree(syms, top, st.mem, st.env)
    ensures Matches(Run(s, st.mem, fuel, ops), SsaRun(s, V, syms, st, fuel, ops), syms, P, Behind(s, P, V, top),
                    st.env, 0)
    decreases fuel, s, 1
  {
    hide Sound, Agree, Behind, MusSeen, PhiEnv, SsaIvDef;
    match s
    case Skip => assert Behind(s, P, V, top) == top by { SkipBehind(s, P, V, top); }
    case Seq(a, b) =>
      SeqSound(s, syms, P, V, top);
      VerifiedSimulates(a, syms, P, V, top, st, fuel, ops);
      var r := SsaRun(a, V, syms, st, fuel, ops);
      if r.SsaNext? {
        VerifiedSimulates(b, syms, P, V, Behind(a, P, V, top), r.st, fuel, ops);
      }
    case Store(_, _, _) => VerifiedDef(s, syms, P, V, top, st, fuel, ops);
    case StoreAt(_, _, _, _) => VerifiedDef(s, syms, P, V, top, st, fuel, ops);
    case Call(_, _, _, _) => VerifiedDef(s, syms, P, V, top, st, fuel, ops);
    case Retv(_, _, _) => VerifiedRetv(s, syms, P, V, top, st);
    case If(_, _, _, _) => VerifiedIf(s, syms, P, V, top, st, fuel, ops);
    case Loop(_, _, _, _, _, _) =>
      EnterSound(s, syms, P, V, top, st, ops);
      var s1 := SsaIvDef(s.init, s.iv, V, st, ops);
      VerifiedLoop(s, syms, P, V, top, SsaState(s1.mem, PhiEnv(ListAt(V.phi, s.id), 0, s1.env)), fuel, ops);
  }

  lemma SkipBehind(s: Stmt, P: Plan, V: View, top: seq<nat>)
    requires s.Skip?
    ensures Behind(s, P, V, top) == top
  {
  }

  lemma VerifiedDef(s: Stmt, syms: seq<Sym>, P: Plan, V: View, top: seq<nat>, st: SsaState, fuel: nat, ops: Ops)
    requires s.Store? || s.StoreAt? || s.Call?
    requires Sound(s, syms, P, V, top) && Agree(syms, top, st.mem, st.env)
    ensures Matches(Run(s, st.mem, fuel, ops), SsaRun(s, V, syms, st, fuel, ops), syms, P, Behind(s, P, V, top),
                    st.env, 0)
  {
    hide Agree, DistinctPlaces, DefPlanned, BehindStore, StoreChecked, Typed, Covers, Apply;
    assert FitsAt(P, V, s.id);
    match s
    case Store(id, p, rhs) =>
      EvalAgrees(rhs, syms, P, V, top, st.mem, st.env, ops);
      var eff := Effect(p, Eval(rhs, st.mem, ops));
      CoversDirect(p, eff);
      StoreSound(id, p, eff, syms, P, V, top, st);
    case StoreAt(id, v, sub, rhs) =>
      EvalAgrees(rhs, syms, P, V, top, st.mem, st.env, ops);
      EvalAgrees(sub, syms, P, V, top, st.mem, st.env, ops);
      var eff := Effect(Place(v, At(Eval(sub, st.mem, ops).bits)), Eval(rhs, st.mem, ops));
      CoversDirect(Whole(v), eff);
      StoreSound(id, Whole(v), eff, syms, P, V, top, st);
    case Call(id, callee, args, ret) =>
      EvalAgrees(args, syms, P, V, top, st.mem, st.env, ops);
      if ret.Some? {
        var eff := Effect(Whole(ret.value), ops(callee, [Eval(args, st.mem, ops)]));
        CoversDirect(Whole(ret.value), eff);
        StoreSound(id, Whole(ret.value), eff, syms, P, V, top, st);
      }
  }

  lemma CoversDirect(d: Place, eff: Effect)
    requires eff.p.v == d.v && (d == eff.p || d.ix.NoIndex?)
    ensures Covers(d, eff)
  {
  }

  lemma VerifiedRetv(s: Stmt, syms: seq<Sym>, P: Plan, V: View, top: seq<nat>, st: SsaState)
    requires s.Retv? && Sound(s, syms, P, V, top) && Agree(syms, top, st.mem, st.env)
    ensures LoadVer(s.kid, Whole(s.v), V, st.mem, st.env) == Read(st.mem, Whole(s.v))
    ensures MusSeen(s.id, MuVals(ListAt(V.mu, s.id), st.env), syms, P, st.mem)
  {
    var list, mus := ListAt(V.mu, s.id), ListAt(P.mu, s.id);
    assert FitsAt(P, V, s.id);
    forall k | 0 <= k < |list|
      ensures mus[k] < |syms| && MuVals(list, st.env)[k] == Read(st.mem, syms[mus[k]].place)
    {
      assert MuChecked(list[k], V, top) && MuSyms(list)[k] == list[k].sym;
      assert mus[k] in Elems(mus);
      assert mus[k] in {SymOf(P, s.kid)} + Relatives(syms, SymOf(P, s.kid));
    }
  }

  lemma {:induction false} VerifiedIf(s: Stmt, syms: seq<Sym>, P: Plan, V: View, top: seq<nat>, st: SsaState,
                                      fuel: nat, ops: Ops)
    requires s.If? && Sound(s, syms, P, V, top) && Agree(syms, top, st.mem, st.env)
    ensures Matches(Run(s, st.mem, fuel, ops), SsaRun(s, V, syms, st, fuel, ops), syms, P, Behind(s, P, V, top),
                    st.env, 0)
    decreases fuel, s, 0
  {
    IfSound(s, syms, P, V, top);
    NoPhiFor(s, syms, P, V, 0);
    BranchBack(s, s.thn, syms, P, V, top);
    BranchBack(s, s.els, syms, P, V, top);
    SoundTyped(s, syms, P, V, top);
    hide Sound, Agree, Behind, BehindPhis, MusSeen, PhiEnv, NoDup, PhisChecked, OpndsChecked, Typed, BehindBranch,
         UsesNamed, ExprPlanned, Planned;
    EvalAgrees(s.cond, syms, P, V, top, st.mem, st.env, ops);
    if Eval(s.cond, st.mem, ops).bits != 0 {
      VerifiedSimulates(s.thn, syms, P, V, top, st, fuel, ops);
      var r := SsaRun(s.thn, V, syms, st, fuel, ops);
      if r.SsaNext? {
        JoinSound(s.id, 0, syms, V, Behind(s.thn, P, V, top), top, r.st.mem, r.st.env);
      }
    } else {
      VerifiedSimulates(s.els, syms, P, V, top, st, fuel, ops);
      var r := SsaRun(s.els, V, syms, st, fuel, ops);
      if r.SsaNext? {
        JoinSound(s.id, 1, syms, V, Behind(s.els, P, V, top), top, r.st.mem, r.st.env);
      }
    }
  }

  lemma SoundTyped(s: Stmt, syms: seq<Sym>, P: Plan, V: View, top: seq<nat>)
    requires Sound(s, syms, P, V, top)
    ensures Planned(s, syms, P) && Fits(P, V) && Typed(V, top) && |top| == |syms|
  {
  }

  /** After the init and the copies of the preheader edge, the header versions are current. */
  lemma EnterSound(s: Stmt, syms: seq<Sym>, P: Plan, V: View, top: seq<nat>, st: SsaState, ops: Ops)
    requires s.Loop? && Sound(s, syms, P, V, top) && Agree(syms, top, st.mem, st.env)
    ensures var r := SsaIvDef(s.init, s.iv, V, st, ops);
            && r.mem == Apply(st.mem, Effect(Whole(s.iv), Eval(s.init, st.mem, ops)))
            && Agree(syms, Header(s, P, V, top), r.mem, PhiEnv(ListAt(V.phi, s.id), 0, r.env))
  {
    LoopSound(s, syms, P, V, top);
    SoundTyped(s, syms, P, V, top);
    NoPhiFor(s, syms, P, V, 0);
    HeaderTyped(s, P, V, top);
    hide Sound, Agree, BehindPhis, PhiEnv, NoDup, PhisChecked, OpndsChecked, Typed, BehindDef, UsesNamed, RootPlanned,
         Planned, DistinctPlaces, Relatives, BodyChecked, SsaIvDef;
    IvSound(s.init, s.iv, syms, P, V, top, st, ops);
    var r, topI := SsaIvDef(s.init, s.iv, V, st, ops), BehindDef(s.init.id, P, V, top);
    JoinSound(s.id, 0, syms, V, topI, topI, r.mem, r.env);
  }

  /** After the body, the step and the copies of the back edge, the header versions are current again. */
  lemma BackEdgeSound(s: Stmt, syms: seq<Sym>, P: Plan, V: View, top: seq<nat>, st: SsaState, ops: Ops)
    requires s.Loop? && Sound(s, syms, P, V, top)
    requires Agree(syms, Behind(s.body, P, V, Header(s, P, V, top)), st.mem, st.env)
    ensures var r := SsaIvDef(s.step, s.iv, V, st, ops);
            && r.mem == Apply(st.mem, Effect(Whole(s.iv), Eval(s.step, st.mem, ops)))
            && Agree(syms, Header(s, P, V, top), r.mem, PhiEnv(ListAt(V.phi, s.id), 1, r.env))
  {
    LoopSound(s, syms, P, V, top);
    SoundTyped(s, syms, P, V, top);
    NoPhiFor(s, syms, P, V, 0);
    HeaderTyped(s, P, V, top);
    LoopBack(s, syms, P, V, top);
    var head := Header(s, P, V, top);
    CheckedTyped(s.body, syms, P, V, head);
    hide Sound, Agree, BehindPhis, PhiEnv, NoDup, PhisChecked, OpndsChecked, Typed, BehindDef, UsesNamed, RootPlanned,
         Planned, DistinctPlaces, Relatives, SsaIvDef, Behind, Checked, UsesTyped;
    var end := Behind(s.body, P, V, head);
    IvSound(s.step, s.iv, syms, P, V, end, st, ops);
    var r := SsaIvDef(s.step, s.iv, V, st, ops);
    JoinSound(s.id, 1, syms, V, BackEdge(s, P, V, head), BehindDef(s.init.id, P, V, top), r.mem, r.env);
  }

  lemma AroundBody(s: Stmt, syms: seq<Sym>, P: Plan, V: View, top: seq<nat>)
    requires s.Loop? && Sound(s, syms, P, V, top)
    ensures var head := Header(s, P, V, top);
            && Sound(s.body, syms, P, V, head) && UsesNamed(s.cmp, P, V, head) && ExprPlanned(s.cmp, syms, P)
            && Behind(s, P, V, top) == head
  {
    LoopSound(s, syms, P, V, top);
    LoopBack(s, syms, P, V, top);
  }

  /** From the header on. */
  lemma {:induction false} VerifiedLoop(s: Stmt, syms: seq<Sym>, P: Plan, V: View, top: seq<nat>, st: SsaState,
                                        fuel: nat, ops: Ops)
    requires s.Loop? && Sound(s, syms, P, V, top) && Agree(syms, Header(s, P, V, top), st.mem, st.env)
    ensures Matches(RunLoop(s, st.mem, fuel, ops), SsaLoop(s, V, syms, st, fuel, ops), syms, P, Behind(s, P, V, top),
                    st.env, 0)
    decreases fuel, s, 0
  {
    hide Sound, Agree, PhiEnv, UsesNamed, SsaIvDef, Behind, Header, MusSeen, ExprPlanned, Run, SsaRun, Eval, SsaEval,
         Apply;
    AroundBody(s, syms, P, V, top);
    var head := Header(s, P, V, top);
    EvalAgrees(s.cmp, syms, P, V, head, st.mem, st.env, ops);
    if fuel > 0 && Eval(s.cmp, st.mem, ops).bits != 0 {
      VerifiedSimulates(s.body, syms, P, V, head, st, fuel, ops);
      var r := SsaRun(s.body, V, syms, st, fuel, ops);
      if r.SsaNext? {
        BackEdgeSound(s, syms, P, V, top, r.st, ops);
        var s1 := SsaIvDef(s.step, s.iv, V, r.st, ops);
        VerifiedLoop(s, syms, P, V, top, SsaState(s1.mem, PhiEnv(ListAt(V.phi, s.id), 1, s1.env)), fuel - 1, ops);
      }
    }
  }

  // ----- functions ------------------------------------------------------------------------------

  function EntryWants(list: seq<Chi>, syms: seq<Sym>, mem: Mem): (r: seq<Val>)
    ensures |r| == |list|
  {
    seq(|list|, k requires 0 <= k < |list| =>
      var i := list[k].sym; if i < |syms| then Read(mem, syms[i].place) else ZERO)
  }

  lemma {:induction false} EntryResults(id: nat, n: nat, syms: seq<Sym>, V: View, top: seq<nat>, mem: Mem, env: Env)
    requires n <= |ListAt(V.chi, id)| && NoDup(ChiSyms(ListAt(V.chi, id)))
    requires ChisChecked(id, V, top) && Typed(V, top) && |top| == |syms|
    ensures var list := ListAt(V.chi, id);
            var cur, e := BehindChis(list[..n], top), EntryEnv(list[..n], syms, mem, env);
            && SetUpTo(V, ChiSyms(list), n, top, cur, env, e)
            && ValuesAre(ChiSyms(list), n, cur, e, EntryWants(list, syms, mem))
  {
    var list := ListAt(V.chi, id);
    if n > 0 {
      hide SetUpTo, ValuesAre, Typed, VersionOf, NoDup, Set, Read;
      var k := n - 1;
      EntryResults(id, k, syms, V, top, mem, env);
      assert list[..n][..k] == list[..k];
      var c, cur, e := list[k], BehindChis(list[..k], top), EntryEnv(list[..k], syms, mem, env);
      assert ChiChecked(id, k, c, V, cur);
      ChiSymsAt(list, k);
      SetNext(V, ChiSyms(list), k, top, cur, env, e, c.res.value, EntryWants(list, syms, mem));
    } else {
      assert list[..0] == [] && ChiSyms(list)[..0] == [];
    }
  }

  /** Version `i` is the zero version of symbol `i`. */
  ghost predicate ZeroTyped(V: View, n: nat) {
    n <= |V.vers| && forall i :: 0 <= i < n ==> V.vers[i].sym == i
  }

  lemma EntrySoundAt(f: Func, syms: seq<Sym>, P: Plan, V: View, args: seq<Val>, mem: Mem, i: nat)
    requires |args| == |f.formals| && EntryPlanned(f, syms, P) && Fits(P, V) && ZeroTyped(V, |syms|)
    requires ChisChecked(f.id, V, ZeroPoint(|syms|).top) && i < |syms| && syms[i].realOcc
    ensures var mem1, list := Bind(f.formals, args, mem), ListAt(V.chi, f.id);
            Lookup(EntryEnv(list, syms, mem1, ZeroEnv(syms, mem)), BehindChis(list, ZeroPoint(|syms|).top)[i])
            == Read(mem1, syms[i].place)
  {
    hide FormalsPlanned, NoDup, Apply, Read;
    var list, zero, mem1 := ListAt(V.chi, f.id), ZeroPoint(|syms|).top, Bind(f.formals, args, mem);
    assert FitsAt(P, V, f.id);
    EntryResults(f.id, |list|, syms, V, zero, mem1, ZeroEnv(syms, mem));
    assert list[..|list|] == list && ChiSyms(list)[..|list|] == ChiSyms(list);
    if i in ChiSyms(list) {
      var k :| 0 <= k < |list| && ChiSyms(list)[k] == i;
      assert list[k].sym == i;
    } else {
      assert i !in Elems(ChiSyms(list));
      forall g | g in f.formals ensures g.v != syms[i].place.v {
        assert i !in FormalSyms(syms, f.formals);
      }
      BindKeeps(f.formals, args, mem, syms[i].place);
    }
  }

  ghost predicate FuncCurrent(f: Func, P: Plan, V: View, n: nat) {
    LoadsCurrent(f.body, P, V, BehindChis(ListAt(V.chi, f.id), ZeroPoint(n).top))
  }

  /** Verified tables with current loads keep the meaning of the function, on every input. */
  lemma VerifiedPreserved(f: Func, syms: seq<Sym>, P: Plan, V: View, args: seq<Val>, mem: Mem, fuel: nat, ops: Ops)
    requires |args| == |f.formals|
    requires FuncPlanned(f, syms, P) && Fits(P, V) && ZeroTyped(V, |syms|) && NoBareRoots(f.body)
    requires FuncChecked(f, P, V, |syms|) && FuncCurrent(f, P, V, |syms|)
    ensures var top := BehindChis(ListAt(V.chi, f.id), ZeroPoint(|syms|).top);
            Matches(RunFunc(f, args, mem, fuel, ops), SsaRunFunc(f, V, syms, args, mem, fuel, ops), syms, P,
                    Behind(f.body, P, V, top), map[], 0)
  {
    hide EntryPlanned, Planned, Checked, LoadsCurrent, Matches, Agree, ChisChecked, EntryEnv, BehindChis;
    var list, zero, mem1 := ListAt(V.chi, f.id), ZeroPoint(|syms|).top, Bind(f.formals, args, mem);
    var top, env := BehindChis(list, zero), EntryEnv(list, syms, mem1, ZeroEnv(syms, mem));
    assert list[..|list|] == list;
    ChisTyped(f.id, |list|, V, zero);
    assert Agree(syms, top, mem1, env) by {
      EntryAgrees(f, syms, P, V, args, mem);
    }
    VerifiedSimulates(f.body, syms, P, V, top, SsaState(mem1, env), fuel, ops);
    FromAnywhere(RunFunc(f, args, mem, fuel, ops), SsaRunFunc(f, V, syms, args, mem, fuel, ops), syms, P,
                 Behind(f.body, P, V, top), env);
  }

  lemma EntryAgrees(f: Func, syms: seq<Sym>, P: Plan, V: View, args: seq<Val>, mem: Mem)
    requires |args| == |f.formals| && EntryPlanned(f, syms, P) && Fits(P, V) && ZeroTyped(V, |syms|)
    requires ChisChecked(f.id, V, ZeroPoint(|syms|).top)
    ensures var mem1, list := Bind(f.formals, args, mem), ListAt(V.chi, f.id);
            Agree(syms, BehindChis(list, ZeroPoint(|syms|).top), mem1, EntryEnv(list, syms, mem1, ZeroEnv(syms, mem)))
  {
    hide EntryPlanned, Fits, ChisChecked, EntryEnv, BehindChis, Read;
    forall i | 0 <= i < |syms| && syms[i].realOcc
      ensures var mem1, list := Bind(f.formals, args, mem), ListAt(V.chi, f.id);
              Lookup(EntryEnv(list, syms, mem1, ZeroEnv(syms, mem)), BehindChis(list, ZeroPoint(|syms|).top)[i])
              == Read(mem1, syms[i].place)
    {
      EntrySoundAt(f, syms, P, V, args, mem, i);
    }
  }

  lemma FromAnywhere(o: Outcome, r: SsaOutcome, syms: seq<Sym>, P: Plan, top: seq<nat>, env: Env)
    requires Matches(o, r, syms, P, top, env, 0)
    ensures Matches(o, r, syms, P, top, map[], 0)
  {
  }

  // ----- renamed tables are of this kind -----------------------------------------------------------

  lemma RenamedHeader(s: Stmt, syms: seq<Sym>, P: Plan, V: View, at: Point)
    requires s.Loop? && Planned(s, syms, P) && Renamed(s, P, V, at)
    requires Typed(V, at.top) && Below(at.top, at.next) && |at.top| == |syms|
    ensures var head := AtHeader(s, P, at);
            && Header(s, P, V, at.top) == head.top && Typed(V, head.top) && Below(head.top, head.next)
            && |head.top| == |syms| && Planned(s.body, syms, P) && Renamed(s.body, P, V, head)
            && UsesNamed(s.cmp, P, V, head.top) && RootUsesNamed(s.init, P, V, at.top)
            && RootUsesNamed(s.step, P, V, After(s.body, P, head).top)
  {
    hide Typed, UsesNamed, RootUsesNamed, DefNamed, PhisNamed, Walkable, ExprPlanned, DistinctPlaces, BehindDef,
         BehindPhis;
    var topI, back := Set(at.top, SymOf(P, s.init.id), at.next), AtBackEdge(s, P, at);
    HeaderBelow(s, P, at);
    PhisWalkable(s, syms, P);
    PhisParts(s.id, P, V, topI, back.top, at.next + 1);
    DefPasses(s.init.id, P, V, at.top, at.next);
    PhisAllPass(s.id, P, V, topI, at.next + 1);
  }

  /** Renaming makes every load current, unless a loop starts or steps with a bare load. */
  lemma {:induction false} RenamedCurrent(s: Stmt, syms: seq<Sym>, P: Plan, V: View, at: Point)
    requires Planned(s, syms, P) && Fits(P, V) && Renamed(s, P, V, at) && NoBareRoots(s)
    requires Typed(V, at.top) && Below(at.top, at.next) && |at.top| == |syms|
    ensures LoadsCurrent(s, P, V, at.top)
    decreases s
  {
    hide Typed, MuChiPlanned, PhisPlanned, StoreNamed, PhisNamed, MusNamed, DefNamed, UsesNamed, BehindPhis,
         BehindDef, DistinctPlaces;
    match s
    case Seq(a, b) =>
      SeqPlanned(s, syms, P);
      AfterBelow(a, P, at);
      RenamedPasses(a, syms, P, V, at);
      RenamedCurrent(a, syms, P, V, at);
      RenamedCurrent(b, syms, P, V, After(a, P, at));
    case If(id, _, a, b) =>
      IfParts(s, syms, P);
      AfterBelow(a, P, at);
      var at1 := Point(at.top, After(a, P, at).next);
      BranchBack(s, a, syms, P, V, at.top);
      RenamedCurrent(a, syms, P, V, at);
      RenamedCurrent(b, syms, P, V, at1);
    case Loop(_, _, i, _, st, b) =>
      RenamedHeader(s, syms, P, V, at);
      RenamedPasses(b, syms, P, V, AtHeader(s, P, at));
      RenamedCurrent(b, syms, P, V, AtHeader(s, P, at));
    case _ =>
  }

  lemma FuncRenamedCurrent(f: Func, syms: seq<Sym>, P: Plan, V: View)
    requires FuncPlanned(f, syms, P) && Fits(P, V) && FuncRenamed(f, P, V, |syms|) && NoBareRoots(f.body)
    requires ZeroTyped(V, |syms|)
    ensures FuncCurrent(f, P, V, |syms|)
  {
    hide ChisNamed, Renamed, Planned, LoadsCurrent, PushAll, BehindChis;
    var zero := ZeroPoint(|syms|).top;
    EntryWalkable(f, syms, P);
    PushAllBelow(ListAt(P.chi, f.id), zero, |syms|);
    ChisAllPass(f.id, P, V, zero, |syms|);
    RenamedCurrent(f.body, syms, P, V, BodyPoint(f, P, |syms|));
  }

  // ----- single assignment ----------------------------------------------------------------------------

  /** The version the tables give a definer. */
  function ResOf(V: View, d: Def): Option<nat> {
    match d
    case Unknown => None
    case ByStmt(id) => VerAt(V.nodeVer, id)
    case ByChi(id, k) => if k < |ListAt(V.chi, id)| then ListAt(V.chi, id)[k].res else None
    case ByPhi(id, k) => if k < |ListAt(V.phi, id)| then ListAt(V.phi, id)[k].res else None
  }

  /** The version of a definer is numbered and names it. */
  ghost predicate Defines(V: View, d: Def) {
    var r := ResOf(V, d); r.Some? && r.value < |V.vers| && V.vers[r.value].number.Some? && V.vers[r.value].def == d
  }

  ghost predicate AllDefine(V: View, list: seq<Def>) {
    forall d :: d in list ==> Defines(V, d)
  }

  lemma ChisDefine(id: nat, P: Plan, V: View, top: seq<nat>)
    requires ChisChecked(id, V, top) && FitsAt(P, V, id)
    ensures AllDefine(V, D.ChiDefiners(id, |ListAt(P.chi, id)|))
  {
    var list := ListAt(V.chi, id);
    forall k: nat | k < |list| ensures Defines(V, ByChi(id, k)) {
      assert ChiChecked(id, k, list[k], V, BehindChis(list[..k], top));
    }
  }

  lemma PhisDefine(id: nat, P: Plan, V: View, n: nat)
    requires PhisChecked(id, V, n) && FitsAt(P, V, id)
    ensures AllDefine(V, D.PhiDefiners(id, |ListAt(P.phi, id)|))
  {
    var list := ListAt(V.phi, id);
    forall k: nat | k < |list| ensures Defines(V, ByPhi(id, k)) {
      assert PhiChecked(id, k, list[k], V, n);
    }
  }

  lemma StoreDefines(id: nat, P: Plan, V: View, top: seq<nat>)
    requires StoreChecked(id, P, V, top) && Fits(P, V)
    ensures AllDefine(V, [ByStmt(id)] + D.ChiDefiners(id, |ListAt(P.chi, id)|))
  {
    assert FitsAt(P, V, id);
    ChisDefine(id, P, V, BehindDef(id, P, V, top));
  }

  lemma {:induction false} StmtDefines(s: Stmt, P: Plan, V: View, top: seq<nat>)
    requires Checked(s, P, V, top) && Fits(P, V)
    ensures AllDefine(V, D.Definers(s, P))
    decreases s
  {
    hide Defines, StoreChecked, DefChecked, UsesTyped, PhisChecked, OpndsChecked, MarksChecked, Fits, Header,
         BehindBranch;
    match s
    case Seq(a, b) =>
      StmtDefines(a, P, V, top);
      StmtDefines(b, P, V, Behind(a, P, V, top));
    case Store(id, _, _) => StoreDefines(id, P, V, top);
    case StoreAt(id, _, _, _) => StoreDefines(id, P, V, top);
    case Call(id, _, _, ret) =>
      if ret.Some? {
        StoreDefines(id, P, V, top);
      }
    case If(id, _, a, b) =>
      var top1 := BehindBranch(id, a, P, V, top);
      assert BranchChecked(id, a, 0, P, V, top) && BranchChecked(id, b, 1, P, V, top1);
      StmtDefines(a, P, V, top);
      StmtDefines(b, P, V, top1);
      FitsHere(P, V, id);
      PhisDefine(id, P, V, |top|);
    case Loop(id, _, i, _, st, b) =>
      var head := Header(s, P, V, top);
      assert HeaderChecked(s, P, V, top) && BodyChecked(s, P, V, head);
      StmtDefines(b, P, V, head);
      FitsHere(P, V, id);
      PhisDefine(id, P, V, |top|);
      NodeDefines(i.id, P, V, |top|);
      NodeDefines(st.id, P, V, |head|);
    case _ =>
  }

  lemma NodeDefines(id: nat, P: Plan, V: View, n: nat)
    requires DefChecked(id, P, V, n)
    ensures Defines(V, ByStmt(id))
  {
  }

  lemma FitsHere(P: Plan, V: View, id: nat)
    requires Fits(P, V)
    ensures FitsAt(P, V, id)
  {
  }

  /** Verified tables are in single-assignment form: no version has two definers, no zero version has one. */
  lemma SingleAssignment(f: Func, P: Plan, V: View, n: nat, d: Def, e: Def)
    requires FuncChecked(f, P, V, n) && Fits(P, V)
    requires n <= |V.vers| && forall i :: 0 <= i < n ==> V.vers[i].def == Unknown
    requires d in D.FuncDefiners(f, P) && e in D.FuncDefiners(f, P) && d != e
    ensures ResOf(V, d).Some? && ResOf(V, e).Some? && n <= ResOf(V, d).value < |V.vers| && ResOf(V, d) != ResOf(V, e)
  {
    hide Checked, ChisChecked, BehindChis, Fits;
    FitsHere(P, V, f.id);
    ChisDefine(f.id, P, V, ZeroPoint(n).top);
    StmtDefines(f.body, P, V, BehindChis(ListAt(V.chi, f.id), ZeroPoint(n).top));
    assert Defines(V, d) && Defines(V, e);
  }

  // ----- no other operands pass ------------------------------------------------------------------------

  ghost predicate ChisAlike(a: seq<Chi>, b: seq<Chi>) {
    |a| == |b| && forall k :: 0 <= k < |a| ==> b[k] == a[k].(opnd := b[k].opnd)
  }

  ghost predicate PhisAlike(a: seq<Phi>, b: seq<Phi>) {
    |a| == |b| && forall k :: 0 <= k < |a| ==> b[k] == a[k].(opnd := b[k].opnd) && |a[k].opnd| == |b[k].opnd| == 2
  }

  ghost predicate MusAlike(a: seq<Mu>, b: seq<Mu>) {
    |a| == |b| && forall k :: 0 <= k < |a| ==> b[k].sym == a[k].sym
  }

  /** The tables differ in the operands of mus, chis and phis at most. */
  ghost predicate SameResults(V: View, V': View) {
    && V'.vers == V.vers && V'.nodeVer == V.nodeVer
    && forall id {:trigger ListAt(V'.chi, id)} {:trigger ListAt(V'.phi, id)} {:trigger ListAt(V'.mu, id)} ::
         && ChisAlike(ListAt(V.chi, id), ListAt(V'.chi, id)) && PhisAlike(ListAt(V.phi, id), ListAt(V'.phi, id))
         && MusAlike(ListAt(V.mu, id), ListAt(V'.mu, id))
  }

  lemma {:induction false} ChisBehind(a: seq<Chi>, b: seq<Chi>, top: seq<nat>)
    requires ChisAlike(a, b)
    ensures BehindChis(a, top) == BehindChis(b, top)
  {
    if a != [] {
      ChisBehind(a[..|a| - 1], b[..|b| - 1], top);
    }
  }

  lemma {:induction false} PhisBehind(a: seq<Phi>, b: seq<Phi>, top: seq<nat>)
    requires PhisAlike(a, b)
    ensures BehindPhis(a, top) == BehindPhis(b, top)
  {
    if a != [] {
      PhisBehind(a[..|a| - 1], b[..|b| - 1], top);
    }
  }

  lemma ListsAlike(V: View, V': View, id: nat)
    requires SameResults(V, V')
    ensures ChisAlike(ListAt(V.chi, id), ListAt(V'.chi, id)) && PhisAlike(ListAt(V.phi, id), ListAt(V'.phi, id))
    ensures MusAlike(ListAt(V.mu, id), ListAt(V'.mu, id)) && PhiSyms(ListAt(V.phi, id)) == PhiSyms(ListAt(V'.phi, id))
  {
  }

  lemma StoreBehind(id: nat, P: Plan, V: View, V': View, top: seq<nat>)
    requires SameResults(V, V')
    ensures BehindDef(id, P, V', top) == BehindDef(id, P, V, top) &&
            BehindStore(id, P, V', top) == BehindStore(id, P, V, top)
  {
    ListsAlike(V, V', id);
    ChisBehind(ListAt(V.chi, id), ListAt(V'.chi, id), BehindDef(id, P, V, top));
  }

  lemma HeaderBehind(s: Stmt, P: Plan, V: View, V': View, top: seq<nat>)
    requires s.Loop? && SameResults(V, V')
    ensures Header(s, P, V', top) == Header(s, P, V, top)
  {
    ListsAlike(V, V', s.id);
    PhisBehind(ListAt(V.phi, s.id), ListAt(V'.phi, s.id), BehindDef(s.init.id, P, V, top));
  }

  lemma SamePopped(id: nat, V: View, V': View, before: seq<nat>, top: seq<nat>)
    requires SameResults(V, V') && |before| == |top|
    ensures Popped(id, V', before, top) == Popped(id, V, before, top)
  {
    ListsAlike(V, V', id);
  }

  /** What is current behind a statement does not depend on operands. */
  lemma {:induction false} SameBehind(s: Stmt, P: Plan, V: View, V': View, top: seq<nat>)
    requires SameResults(V, V')
    ensures Behind(s, P, V', top) == Behind(s, P, V, top)
    decreases s, 0
  {
    hide SameResults, BehindStore, BehindDef, BehindPhis, Popped, Header;
    match s
    case Seq(a, b) =>
      SameBehind(a, P, V, V', top);
      SameBehind(b, P, V, V', Behind(a, P, V, top));
    case Store(id, _, _) => StoreBehind(id, P, V, V', top);
    case StoreAt(id, _, _, _) => StoreBehind(id, P, V, V', top);
    case Call(id, _, _, _) => StoreBehind(id, P, V, V', top);
    case If(id, _, a, b) =>
      SameBranch(id, a, P, V, V', top);
      var top1 := BehindBranch(id, a, P, V, top);
      SameBranch(id, b, P, V, V', top1);
      ListsAlike(V, V', id);
      PhisBehind(ListAt(V.phi, id), ListAt(V'.phi, id), BehindBranch(id, b, P, V, top1));
    case Loop(id, _, _, _, st, b) =>
      HeaderBehind(s, P, V, V', top);
      var head := Header(s, P, V, top);
      SameBehind(b, P, V, V', head);
      StoreBehind(st.id, P, V, V', Behind(b, P, V, head));
      SamePopped(id, V, V', head, BackEdge(s, P, V, head));
    case _ =>
  }

  lemma {:induction false} SameBranch(id: nat, b: Stmt, P: Plan, V: View, V': View, top: seq<nat>)
    requires SameResults(V, V')
    ensures BehindBranch(id, b, P, V', top) == BehindBranch(id, b, P, V, top)
    decreases b, 1
  {
    hide SameResults, Popped;
    SameBehind(b, P, V, V', top);
    SamePopped(id, V, V', top, Behind(b, P, V, top));
  }

  /** The operands in a statement are the same. */
  ghost predicate SameOperands(s: Stmt, V: View, V': View) {
    match s
    case Seq(a, b) => SameOperands(a, V, V') && SameOperands(b, V, V')
    case Store(id, _, _) => ListAt(V'.chi, id) == ListAt(V.chi, id)
    case StoreAt(id, _, _, _) => ListAt(V'.chi, id) == ListAt(V.chi, id)
    case Call(id, _, _, ret) => ret.Some? ==> ListAt(V'.chi, id) == ListAt(V.chi, id)
    case Retv(id, _, _) => ListAt(V'.mu, id) == ListAt(V.mu, id)
    case If(id, _, a, b) => ListAt(V'.phi, id) == ListAt(V.phi, id) && SameOperands(a, V, V') && SameOperands(b, V, V')
    case Loop(id, _, _, _, _, b) => ListAt(V'.phi, id) == ListAt(V.phi, id) && SameOperands(b, V, V')
    case _ => true
  }

  lemma SameChis(id: nat, V: View, V': View, top: seq<nat>)
    requires SameResults(V, V') && ChisChecked(id, V, top) && ChisChecked(id, V', top)
    ensures ListAt(V'.chi, id) == ListAt(V.chi, id)
  {
    var a, b := ListAt(V.chi, id), ListAt(V'.chi, id);
    ListsAlike(V, V', id);
    forall k | 0 <= k < |a| ensures a[k] == b[k] {
      assert ChiChecked(id, k, a[k], V, BehindChis(a[..k], top)) &&
             ChiChecked(id, k, b[k], V', BehindChis(b[..k], top));
      ChisBehind(a[..k], b[..k], top);
    }
  }

  lemma SamePhis(id: nat, V: View, V': View, left: seq<nat>, right: seq<nat>)
    requires SameResults(V, V') && OpndsChecked(id, 0, V, left) && OpndsChecked(id, 1, V, right)
    requires OpndsChecked(id, 0, V', left) && OpndsChecked(id, 1, V', right)
    ensures ListAt(V'.phi, id) == ListAt(V.phi, id)
  {
    var a, b := ListAt(V.phi, id), ListAt(V'.phi, id);
    ListsAlike(V, V', id);
    forall k | 0 <= k < |a| ensures a[k] == b[k] {
      assert OpndChecked(a[k], 0, V, left) && OpndChecked(a[k], 1, V, right);
      assert OpndChecked(b[k], 0, V', left) && OpndChecked(b[k], 1, V', right);
      assert a[k].opnd == [a[k].opnd[0], a[k].opnd[1]] && b[k].opnd == [b[k].opnd[0], b[k].opnd[1]];
    }
  }

  lemma SameMus(id: nat, V: View, V': View, top: seq<nat>)
    requires SameResults(V, V') && MusChecked(id, V, top) && MusChecked(id, V', top)
    ensures ListAt(V'.mu, id) == ListAt(V.mu, id)
  {
    var a, b := ListAt(V.mu, id), ListAt(V'.mu, id);
    ListsAlike(V, V', id);
    forall k | 0 <= k < |a| ensures a[k] == b[k] {
      assert MuChecked(a[k], V, top) && MuChecked(b[k], V', top);
    }
  }

  lemma SameStore(id: nat, P: Plan, V: View, V': View, top: seq<nat>)
    requires SameResults(V, V') && StoreChecked(id, P, V, top) && StoreChecked(id, P, V', top)
    ensures ListAt(V'.chi, id) == ListAt(V.chi, id)
  {
    StoreBehind(id, P, V, V', top);
    SameChis(id, V, V', BehindDef(id, P, V, top));
  }

  /** Results decide operands: where two tables with the same results pass, they are the same. */
  lemma {:induction false} OperandsForced(s: Stmt, P: Plan, V: View, V': View, top: seq<nat>)
    requires SameResults(V, V') && Checked(s, P, V, top) && Checked(s, P, V', top)
    ensures SameOperands(s, V, V')
    decreases s
  {
    hide SameResults, StoreChecked, BehindStore, BehindDef, BehindPhis, Popped, Header, UsesTyped, PhisChecked,
         OpndsChecked, DefChecked, MarksChecked, MusChecked;
    match s
    case Seq(a, b) =>
      SameBehind(a, P, V, V', top);
      OperandsForced(a, P, V, V', top);
      OperandsForced(b, P, V, V', Behind(a, P, V, top));
    case Store(id, _, _) => SameStore(id, P, V, V', top);
    case StoreAt(id, _, _, _) => SameStore(id, P, V, V', top);
    case Call(id, _, _, ret) =>
      if ret.Some? {
        SameStore(id, P, V, V', top);
      }
    case Retv(id, _, _) => SameMus(id, V, V', top);
    case If(id, _, a, b) =>
      var top1 := BehindBranch(id, a, P, V, top);
      SameBehind(a, P, V, V', top);
      SameBranch(id, a, P, V, V', top);
      SameBehind(b, P, V, V', top1);
      assert BranchChecked(id, a, 0, P, V, top) && BranchChecked(id, a, 0, P, V', top);
      assert BranchChecked(id, b, 1, P, V, top1) && BranchChecked(id, b, 1, P, V', top1);
      OperandsForced(a, P, V, V', top);
      OperandsForced(b, P, V, V', top1);
      SamePhis(id, V, V', Behind(a, P, V, top), Behind(b, P, V, top1));
    case Loop(id, _, i, _, st, b) =>
      var head := Header(s, P, V, top);
      HeaderBehind(s, P, V, V', top);
      SameBehind(b, P, V, V', head);
      StoreBehind(i.id, P, V, V', top);
      StoreBehind(st.id, P, V, V', Behind(b, P, V, head));
      assert HeaderChecked(s, P, V, top) && HeaderChecked(s, P, V', top);
      assert BodyChecked(s, P, V, head) && BodyChecked(s, P, V', head);
      OperandsForced(b, P, V, V', head);
      SamePhis(id, V, V', BehindDef(i.id, P, V, top), BackEdge(s, P, V, head));
    case _ =>
  }

  /** From tables that pass, replacing any operand of a mu, chi or phi by another makes them fail. */
  lemma ReplacedOperandFails(f: Func, P: Plan, V: View, V': View, n: nat)
    requires FuncChecked(f, P, V, n) && SameResults(V, V')
    requires ListAt(V'.chi, f.id) != ListAt(V.chi, f.id) || !SameOperands(f.body, V, V')
    ensures !FuncChecked(f, P, V', n)
  {
    hide SameResults, Checked, ChisChecked, BehindChis, SameOperands;
    var zero := ZeroPoint(n).top;
    if FuncChecked(f, P, V', n) {
      SameChis(f.id, V, V', zero);
      OperandsForced(f.body, P, V, V', BehindChis(ListAt(V.chi, f.id), zero));
    }
  }
}
