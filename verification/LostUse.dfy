/**
  What the condition `NoBareRoots` is there for.  A loop annotates the root of
  its init expression as the definition of the induction variable, so a root
  that is itself a load loses its own use.
 */
module LostUse {
  import opened Basics
  import opened Ir
  import opened StoreSemantics
  import opened SsaTables
  import opened SsaSemantics
  import opened Plans
  import opened SsaBuild

  const X: Var := Var(Datum, 0)
  const I: Var := Var(Datum, 1)

  /** for (i = x; 0; i = 0) {}  return i */
  const COPY: Func := Func(0, [],
    Seq(Loop(1, I, Load(2, Whole(X)), Leaf(3, 0), Leaf(4, 0), Skip), Retv(5, 6, I)))

  function NoOps(op: nat, vals: seq<Val>): Val {
    ZERO
  }

  /** The loop does not iterate and the body returns the value of x. */
  lemma CopyReturnsX(mem: Mem)
    requires X in mem
    ensures var r := RunFunc(COPY, [], mem, 1, NoOps); r.Returned? && r.val == mem[X]
  {
    var mem1 := Apply(mem, Effect(Whole(I), mem[X]));
    var loop := COPY.body.first;
    assert Run(loop, mem, 1, NoOps) == RunLoop(loop, mem1, 1, NoOps) == Next(mem1);
    assert Read(mem1, Whole(I)) == mem[X];
  }

  /** Version `n` is set by the init expression, version `n + 1` by the only phi, and returned. */
  ghost predicate Annotated(V: View, n: nat) {
    var phis := ListAt(V.phi, 1);
    && ListAt(V.chi, 0) == [] && 2 in V.nodeVer && V.nodeVer[2] == n && 6 in V.nodeVer && V.nodeVer[6] == n + 1
    && |phis| == 1 && |phis[0].opnd| == 2 && phis[0].opnd[0] == Some(n) && phis[0].res == Some(n + 1)
  }

  lemma OnlyElement(list: seq<nat>, x: nat)
    requires NoDup(list) && Elems(list) == {x}
    ensures list == [x]
  {
    assert list != [] by {
      assert x in Elems(list);
    }
    var last := |list| - 1;
    assert list[0] in Elems(list) && list[last] in Elems(list);
    assert list[0] == x == list[last];
  }

  lemma NoElement(list: seq<nat>)
    ensures Elems(list) == {} <==> list == []
  {
    if list != [] {
      assert list[0] in Elems(list);
    }
  }

  lemma OnlyAnnotation(syms: seq<Sym>, P: Plan, V: View)
    requires FuncPlanned(COPY, syms, P) && FuncRenamed(COPY, P, V, |syms|)
    ensures Annotated(V, |syms|)
  {
    hide NoDup, Elems, MuChiPlanned, Renamed, Relatives, PushAll;
    NoEntryChis(syms, P, V);
    var loop := COPY.body.first;
    assert MuChiPlanned(COPY.body, syms, P) && PhisPlanned(loop, syms, P);
    assert Defs(Skip, syms, P) == {};
    OnlyElement(ListAt(P.phi, 1), SymOf(P, 2));
    SameSym(syms, P, V, BodyPoint(COPY, P, |syms|));
  }

  lemma NoEntryChis(syms: seq<Sym>, P: Plan, V: View)
    requires EntryPlanned(COPY, syms, P) && ChisNamed(0, P, V, ZeroPoint(|syms|).top, |syms|)
    ensures ListAt(V.chi, 0) == [] && BodyPoint(COPY, P, |syms|).next == |syms|
  {
    hide NoDup, Elems;
    assert FormalSyms(syms, []) == {};
    NoElement(ListAt(P.chi, 0));
    assert |ChiSyms(ListAt(V.chi, 0))| == 0;
  }

  /** The return names the phi: both stand for the induction variable. */
  lemma SameSym(syms: seq<Sym>, P: Plan, V: View, at: Point)
    requires MuChiPlanned(COPY.body, syms, P) && DistinctPlaces(syms) && Renamed(COPY.body, P, V, at)
    requires ListAt(P.phi, 1) == [SymOf(P, 2)]
    ensures var phis := ListAt(V.phi, 1);
            && 2 in V.nodeVer && V.nodeVer[2] == at.next && 6 in V.nodeVer && V.nodeVer[6] == at.next + 1
            && |phis| == 1 && |phis[0].opnd| == 2 && phis[0].opnd[0] == Some(at.next) &&
                 phis[0].res == Some(at.next + 1)
  {
    var loop, ret := COPY.body.first, COPY.body.second;
    assert Renamed(loop, P, V, at) && Renamed(ret, P, V, After(loop, P, at));
    assert MuChiPlanned(loop, syms, P) && MuChiPlanned(ret, syms, P);
    assert NodeSymIs(2, Whole(I), syms, P) && NodeSymIs(6, Whole(I), syms, P);
    hide MuChiPlanned, MusNamed;
    assert SymOf(P, 6) == SymOf(P, 2);
    var phis := ListAt(V.phi, 1);
    assert PhisNamed(1, P, V, Set(at.top, SymOf(P, 2), at.next), AtBackEdge(loop, P, at).top, at.next + 1);
    assert |PhiSyms(phis)| == 1 && PhiSyms(phis)[0] == SymOf(P, 2);
    assert PushAll([], Set(at.top, SymOf(P, 2), at.next), at.next + 1) == Set(at.top, SymOf(P, 2), at.next);
  }

  /** However its annotations were found, the SSA form of this body returns zero. */
  lemma SsaReturnsZero(syms: seq<Sym>, P: Plan, V: View, mem: Mem)
    requires FuncPlanned(COPY, syms, P) && FuncRenamed(COPY, P, V, |syms|)
    ensures var r := SsaRunFunc(COPY, V, syms, [], mem, 1, NoOps); r.SsaReturned? && r.val == ZERO
  {
    hide FuncPlanned, FuncRenamed, MuVals;
    OnlyAnnotation(syms, P, V);
    var loop, n, phis := COPY.body.first, |syms|, ListAt(V.phi, 1);
    var env := EntryEnv(ListAt(V.chi, 0), syms, mem, ZeroEnv(syms, mem));
    var s1 := SsaIvDef(loop.init, I, V, SsaState(mem, env), NoOps);
    assert n !in env && s1.env[n] == ZERO;
    assert |phis| == 1 && phis[..0] == [] && phis == [phis[0]];
    assert PhiEnv([], 0, s1.env) == s1.env;
    var env2 := PhiEnv(phis, 0, s1.env);
    assert env2 == PhiEnv(phis[..0], 0, s1.env)[OrZero(phis[0].res) := Lookup(s1.env, OrZero(phis[0].opnd[0]))];
    assert env2 == s1.env[n + 1 := ZERO];
    var st := SsaState(s1.mem, env2);
    assert SsaEval(loop.cmp, V, st.mem, st.env, NoOps) == ZERO;
    assert SsaLoop(loop, V, syms, st, 1, NoOps) == SsaNext(st);
    assert SsaRun(loop, V, syms, SsaState(mem, env), 1, NoOps) == SsaNext(st);
  }

  /** With x = 7 the body returns 7 and its SSA form returns 0. */
  lemma BareRootLosesX(syms: seq<Sym>, P: Plan, V: View)
    requires FuncPlanned(COPY, syms, P) && FuncRenamed(COPY, P, V, |syms|)
    ensures !NoBareRoots(COPY.body) && !Preserves(COPY, V, syms)
  {
    var mem: Mem := map[X := Val(7, map[])];
    CopyReturnsX(mem);
    SsaReturnsZero(syms, P, V, mem);
    assert !SameOutcome(RunFunc(COPY, [], mem, 1, NoOps), SsaRunFunc(COPY, V, syms, [], mem, 1, NoOps));
  }
}
