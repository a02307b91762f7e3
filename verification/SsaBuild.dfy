/** The phase sequence: symbols, mu and chi lists, phis, renaming, and the verifying replay. */
module SsaBuild {
  import opened Basics
  import opened Ir
  import opened StoreSemantics
  import opened SsaTables
  import opened SsaContainers
  import opened SsaSemantics
  import opened Plans
  import opened Symbols
  import opened PlanFrames
  import opened SimpleBuilder
  import opened VersionStacks
  import opened Renaming
  import opened SsaChecks
  import opened SsaVerify
  import D = Dominance
  import opened Meaning
  import opened SsaSound

  /** Both runs diverge, fall through with the same store, or return the same value with the same store. */
  predicate SameOutcome(o: Outcome, r: SsaOutcome) {
    match o
    case OutOfFuel => r.SsaOutOfFuel?
    case Next(m) => r.SsaNext? && r.st.mem == m
    case Returned(m, v) => r.SsaReturned? && r.mem == m && r.val == v
  }

  /** The SSA form computes what the function computes, on every input. */
  ghost predicate Preserves(f: Func, V: View, syms: seq<Sym>) {
    forall args: seq<Val>, mem: Mem, fuel: nat, ops: Ops :: |args| == |f.formals| ==>
      SameOutcome(RunFunc(f, args, mem, fuel, ops), SsaRunFunc(f, V, syms, args, mem, fuel, ops))
  }

  lemma PreservesAll(f: Func, syms: seq<Sym>, P: Plan, V: View)
    requires FuncPlanned(f, syms, P) && FuncRenamed(f, P, V, |syms|) && NoBareRoots(f.body)
    ensures Preserves(f, V, syms)
  {
    forall args: seq<Val>, mem: Mem, fuel: nat, ops: Ops | |args| == |f.formals|
      ensures SameOutcome(RunFunc(f, args, mem, fuel, ops), SsaRunFunc(f, V, syms, args, mem, fuel, ops))
    {
      MeaningPreserved(f, syms, P, V, args, mem, fuel, ops);
    }
  }

  /** So does any form that passes the verifier and whose loads are current, however it came about. */
  lemma VerifiedPreserves(f: Func, syms: seq<Sym>, P: Plan, V: View)
    requires FuncPlanned(f, syms, P) && Fits(P, V) && ZeroTyped(V, |syms|) && NoBareRoots(f.body)
    requires FuncChecked(f, P, V, |syms|) && FuncCurrent(f, P, V, |syms|)
    ensures Preserves(f, V, syms)
  {
    hide FuncPlanned, Fits, FuncChecked, FuncCurrent;
    forall args: seq<Val>, mem: Mem, fuel: nat, ops: Ops | |args| == |f.formals|
      ensures SameOutcome(RunFunc(f, args, mem, fuel, ops), SsaRunFunc(f, V, syms, args, mem, fuel, ops))
    {
      VerifiedPreserved(f, syms, P, V, args, mem, fuel, ops);
    }
  }

  /** After phase 1 every accessed place is entered, and induction variables have no parts. */
  lemma AllEntered(f: Func, syms: seq<Sym>, ids: SymIds)
    requires WellFormed(f) && SymsValid(syms, ids)
    requires ids.Keys == FormalWholes(f.formals) + WithWholes(StmtPlaces(f.body))
    requires RealPlaces(syms) == StmtPlaces(f.body)
    ensures Entered(f.body, syms) && FormalWholes(f.formals) <= ids.Keys
  {
    forall i | 0 <= i < |syms| && syms[i].place.ix.At? ensures syms[i].place.v !in LoopVars(f.body) {
      assert SymShape(syms, ids, i);
      assert syms[i].place in ids.Keys;
    }
  }

  /** Phi insertion completes the plan. */
  lemma PlanComplete(f: Func, syms: seq<Sym>, P: Plan, P': Plan, scf: map<nat, set<nat>>)
    requires EntryPlanned(f, syms, P) && MuChiPlanned(f.body, syms, P) && ScfPlanned(f.body, syms, P, scf)
    requires DistinctPlaces(syms) && P' == P.(phi := P'.phi)
    requires forall i :: NoDup(ListAt(P'.phi, i)) && Elems(ListAt(P'.phi, i)) == SetAt(scf, i)
    ensures FuncPlanned(f, syms, P')
  {
    assert PlanSame(P, P', StmtIds(f.body));
    MuChiFrame(f.body, syms, P, P');
    ScfFrame(f.body, syms, P, P', scf, scf);
    PhisFromScf(f.body, syms, P', scf);
  }

  ghost predicate Untouched(cont: SsaContainer)
    reads cont
  {
    && cont.syms == [] && cont.vers == [] && cont.ivSyms == {} && cont.nodeSym == map[] && cont.nodeVer == map[]
    && cont.mu == map[] && cont.chi == map[] && cont.phi == map[]
  }

  /** Version `i` is the zero version of symbol `i`. */
  ghost predicate ZerosFirst(syms: seq<Sym>, vers: seq<Ver>) {
    && |syms| <= |vers|
    && forall i :: 0 <= i < |syms| ==> syms[i].zeroVer == i && vers[i] == Ver(i, None, Unknown)
  }

  lemma ZeroSyms(syms: seq<Sym>, vers: seq<Ver>)
    requires ZerosFirst(syms, vers)
    ensures |syms| <= |vers| && forall i :: 0 <= i < |syms| ==> vers[i].sym == i && vers[i].def == Unknown
  {
  }

  lemma ZeroVers(syms: seq<Sym>, vers: seq<Ver>)
    requires ZerosFirst(syms, vers)
    ensures forall i :: 0 <= i < |syms| ==> syms[i].zeroVer == i
  {
  }

  lemma FuncApart(f: Func, syms: seq<Sym>, P: Plan, V: View)
    requires FuncPlanned(f, syms, P) && Fits(P, V)
    ensures PhisApart(f.body, V.phi)
  {
    PlannedApart(f.body, syms, P, V);
  }

  lemma AllDefinedOnce(f: Func, P: Plan, V: View, n: nat)
    requires WellFormed(f) && FuncRenamed(f, P, V, n) && n <= |V.vers|
    requires |V.vers| == After(f.body, P, BodyPoint(f, P, n)).next
    requires forall i :: 0 <= i < n ==> V.vers[i].def == Unknown
    ensures forall ver: nat :: n <= ver < |V.vers| ==> D.DefinedOnce(D.FuncDefiners(f, P), V.vers, ver)
  {
    hide FuncRenamed, WellFormed;
    forall ver: nat | n <= ver < |V.vers| ensures D.DefinedOnce(D.FuncDefiners(f, P), V.vers, ver) {
      D.OneDefiner(f, P, V, n, ver);
    }
  }

  lemma AllRootsMarked(f: Func, syms: seq<Sym>, P: Plan)
    requires FuncPlanned(f, syms, P)
    ensures RootsMarked(f.body, P, SymsOf(syms, LoopVars(f.body)))
  {
    RootsOfLoops(f.body, syms, P, LoopVars(f.body));
  }

  ghost predicate BlankPhis(phi: map<nat, seq<Phi>>) {
    forall i, k :: 0 <= k < |ListAt(phi, i)| ==> ListAt(phi, i)[k].opnd == [None, None]
  }

  /** Steps 1 and 2: symbols, then mu and chi lists. */
  method SymbolsAndChis(cont: SsaContainer, f: Func) returns (ctx: SimpleBuilderCtx)
    requires WellFormed(f) && Untouched(cont)
    modifies cont
    ensures fresh(ctx) && ctx.cont == cont && ctx.ValidSyms()
    ensures EntryPlanned(f, cont.syms, cont.PlanNow()) && MuChiPlanned(f.body, cont.syms, cont.PlanNow())
    ensures ScfPlanned(f.body, cont.syms, cont.PlanNow(), ctx.scfMap)
    ensures cont.nodeVer == map[] && cont.phi == map[] && cont.ivSyms == SymsOf(cont.syms, LoopVars(f.body))
  {
    hide RealPlaces, WithWholes, FormalWholes, Entered, MuChiPlanned, ScfPlanned, EntryPlanned, WellFormed, SymsOf;
    cont.state := SymCreate;
    ctx := new SimpleBuilderCtx(cont);
    NothingReal(cont.syms);
    ctx.SymtabFunc(f);
    AllEntered(f, cont.syms, ctx.symMap);
    cont.state := MuChiGen;
    ctx.MuChiFunc(f);
  }

  lemma NothingReal(syms: seq<Sym>)
    requires syms == []
    ensures RealPlaces(syms) == {}
  {
  }

  /** Steps 1 to 3. */
  method PlanPhases(cont: SsaContainer, f: Func)
    requires WellFormed(f) && Untouched(cont)
    modifies cont
    ensures FuncPlanned(f, cont.syms, cont.PlanNow()) && cont.nodeVer == map[]
    ensures |cont.vers| == |cont.syms| && ZerosFirst(cont.syms, cont.vers) && BlankPhis(cont.phi)
    ensures cont.ivSyms == SymsOf(cont.syms, LoopVars(f.body))
  {
    hide SymsOf, SymShape, MuChiPlanned, ScfPlanned, EntryPlanned, FuncPlanned, NoDup, Elems, PlanOf, WellFormed;
    var ctx := SymbolsAndChis(cont, f);
    ghost var nodeSym, mu, chi, phi := cont.nodeSym, cont.mu, cont.chi, cont.phi;
    cont.state := PhiInsert;
    ctx.InsertPhi();
    forall i
      ensures NoDup(ListAt(cont.PlanNow().phi, i)) && Elems(ListAt(cont.PlanNow().phi, i)) == SetAt(ctx.scfMap, i)
    {
      PlanOfLists(cont.nodeSym, cont.mu, cont.chi, cont.phi, i);
    }
    OnlyPhis(nodeSym, mu, chi, phi, cont.phi);
    ValidDistinct(cont.syms, ctx.symMap);
    PlanComplete(f, cont.syms, PlanOf(nodeSym, mu, chi, phi), cont.PlanNow(), ctx.scfMap);
    ZerosOfTable(cont.syms, ctx.symMap, cont.vers);
  }

  lemma OnlyPhis(nodeSym: map<nat, nat>, mu: map<nat, seq<Mu>>, chi: map<nat, seq<Chi>>,
                 phi: map<nat, seq<Phi>>, phi': map<nat, seq<Phi>>)
    ensures var P' := PlanOf(nodeSym, mu, chi, phi'); P' == PlanOf(nodeSym, mu, chi, phi).(phi := P'.phi)
  {
  }

  lemma ZerosOfTable(syms: seq<Sym>, ids: SymIds, vers: seq<Ver>)
    requires SymsValid(syms, ids) && |vers| == |syms|
    requires forall i :: 0 <= i < |vers| ==> vers[i] == Ver(i, None, Unknown)
    ensures ZerosFirst(syms, vers)
  {
    forall i | 0 <= i < |syms| ensures syms[i].zeroVer == i {
      assert SymShape(syms, ids, i);
    }
  }

  /** Step 4: renaming; the stacks end with the zero versions only. */
  method RenamePhase(cont: SsaContainer, f: Func, ghost P: Plan)
    requires WellFormed(f) && FuncPlanned(f, cont.syms, P) && cont.nodeSym == P.nodeSym && Fits(P, cont.Now())
    requires |cont.vers| == |cont.syms| && ZerosFirst(cont.syms, cont.vers)
    requires cont.nodeVer == map[] && BlankPhis(cont.phi)
    modifies cont`vers, cont`nodeVer, cont`mu, cont`chi, cont`phi
    ensures Fits(P, cont.Now()) && FuncRenamed(f, P, cont.Now(), |cont.syms|)
    ensures |cont.vers| == After(f.body, P, BodyPoint(f, P, |cont.syms|)).next
    ensures ZerosFirst(cont.syms, cont.vers)
    ensures exists lastVer :: Numbered(cont.vers, lastVer)
  {
    hide FuncPlanned, FuncRenamed, Numbered, Grown, WellFormed;
    var stack := new VersionStack();
    var rename := new RenameCtx(cont, stack);
    rename.Initialize(f.id, P);
    rename.HandleFuncEntry(f, P);
    rename.Finalize(f.id, P);
  }

  /**
    Step 5: the replay; it passes on exactly the tables whose operands are what
    reaches them.  Where the lists are complete and the loads are current, a
    success means that the meaning of the function is preserved.
   */
  method VerifyPhase(cont: SsaContainer, f: Func, ghost P: Plan) returns (ok: bool)
    requires cont.nodeSym == P.nodeSym && PhisApart(f.body, cont.phi)
    requires forall i :: 0 <= i < |cont.syms| ==> cont.syms[i].zeroVer == i
    ensures ok <==> FuncChecked(f, P, cont.Now(), |cont.syms|)
    ensures ok && FuncPlanned(f, cont.syms, P) && Fits(P, cont.Now()) && ZeroTyped(cont.Now(), |cont.syms|)
            && NoBareRoots(f.body) && FuncCurrent(f, P, cont.Now(), |cont.syms|) ==>
              Preserves(f, cont.Now(), cont.syms)
  {
    hide FuncChecked, PhisApart, FuncPlanned, Fits, FuncCurrent, ZeroTyped, Preserves;
    var stack := new VersionStack();
    var verifier := new SimpleVerifierCtx(cont, stack);
    verifier.VerifyFunc(f, P);
    ok := verifier.ok;
    if ok && FuncPlanned(f, cont.syms, P) && Fits(P, cont.Now()) && ZeroTyped(cont.Now(), |cont.syms|)
       && NoBareRoots(f.body) && FuncCurrent(f, P, cont.Now(), |cont.syms|) {
      VerifiedPreserves(f, cont.syms, P, cont.Now());
    }
  }

  /** Builds SSA form for a function; the final replay reports whether all its checks passed. */
  method BuildSimple(cont: SsaContainer, f: Func) returns (verified: bool, ghost P: Plan)
    requires WellFormed(f) && Untouched(cont)
    modifies cont
    ensures FuncPlanned(f, cont.syms, P) && cont.nodeSym == P.nodeSym && Fits(P, cont.Now())
    ensures FuncRenamed(f, P, cont.Now(), |cont.syms|)
    ensures |cont.vers| == After(f.body, P, BodyPoint(f, P, |cont.syms|)).next
    ensures forall ver: nat :: |cont.syms| <= ver < |cont.vers| ==> D.DefinedOnce(D.FuncDefiners(f, P), cont.vers, ver)
    ensures exists lastVer :: Numbered(cont.vers, lastVer)
    ensures cont.ivSyms == SymsOf(cont.syms, LoopVars(f.body)) && RootsMarked(f.body, P, cont.ivSyms)
    ensures NoBareRoots(f.body) ==> Preserves(f, cont.Now(), cont.syms) && FuncCurrent(f, P, cont.Now(), |cont.syms|)
    ensures verified && cont.state == Ssa
  {
    hide FuncPlanned, FuncRenamed, Preserves, Numbered, PlanOf, WellFormed, BlankPhis, ZerosFirst, FitsAt,
         FuncChecked, PhisApart, D.DefinedOnce, D.FuncDefiners, SymsOf, RootsMarked;
    PlanPhases(cont, f);
    P := cont.PlanNow();
    AllRootsMarked(f, cont.syms, P);
    PlanNowFits(cont);
    PlanOfSyms(cont.nodeSym, cont.mu, cont.chi, cont.phi);
    cont.state := Rename;
    RenamePhase(cont, f, P);
    cont.state := Ssa;
    FuncApart(f, cont.syms, P, cont.Now());
    ZeroVers(cont.syms, cont.vers);
    verified := VerifyPhase(cont, f, P);
    ZeroSyms(cont.syms, cont.vers);
    AllDefinedOnce(f, P, cont.Now(), |cont.syms|);
    FuncPasses(f, cont.syms, P, cont.Now());
    if NoBareRoots(f.body) {
      PreservesAll(f, cont.syms, P, cont.Now());
      FuncRenamedCurrent(f, cont.syms, P, cont.Now());
    }
  }
}
