/** The first three phases: symbols, mu and chi lists, phi insertion. */
module SimpleBuilder {
  import opened Basics
  import opened Ir
  import opened SsaTables
  import opened SsaContainers
  import opened Plans
  import opened Symbols
  import opened PlanFrames

  /** An enclosing statement; only `if` and `do_loop` can carry phis. */
  datatype Encl = Encl(id: nat, hasPhi: bool)

  function PhiIds(encl: seq<Encl>): set<nat> {
    set e | e in encl && e.hasPhi :: e.id
  }

  lemma PhiIdsAppend(encl: seq<Encl>, e: Encl)
    ensures PhiIds(encl + [e]) == PhiIds(encl) + (if e.hasPhi then {e.id} else {})
  {
    forall id | id in PhiIds(encl) + (if e.hasPhi then {e.id} else {}) ensures id in PhiIds(encl + [e]) {
      if id in PhiIds(encl) {
        var x :| x in encl && x.hasPhi && x.id == id;
        assert x in encl + [e];
      } else {
        assert e in encl + [e];
      }
    }
  }

  /** `d` was added to the sets of the nodes in `ids`, and to no other. */
  ghost predicate ScfAdded(scf: map<nat, set<nat>>, scf': map<nat, set<nat>>, ids: set<nat>, d: set<nat>) {
    && scf'.Keys <= scf.Keys + ids
    && forall i: nat :: SetAt(scf', i) == SetAt(scf, i) + (if i in ids then d else {})
  }

  lemma ScfAddedTrans(s0: map<nat, set<nat>>, s1: map<nat, set<nat>>, s2: map<nat, set<nat>>,
                      ids: set<nat>, d: set<nat>, e: set<nat>)
    requires ScfAdded(s0, s1, ids, d) && ScfAdded(s1, s2, ids, e)
    ensures ScfAdded(s0, s2, ids, d + e)
  {
  }

  /** The real symbols of a set. */
  ghost function RealOf(syms: seq<Sym>, d: set<nat>): set<nat> {
    set i | i in d && i < |syms| && syms[i].realOcc
  }

  /** Places of a statement all have real symbols, and induction variables have no parts. */
  ghost predicate Entered(s: Stmt, syms: seq<Sym>) {
    && StmtPlaces(s) <= RealPlaces(syms)
    && forall i :: 0 <= i < |syms| && syms[i].place.ix.At? ==> syms[i].place.v !in LoopVars(s)
  }

  /** What a traversal of nodes `inside` an enclosing chain did to the modified-symbol sets. */
  ghost predicate ScfGrown(scf: map<nat, set<nat>>, scf': map<nat, set<nat>>, inside: set<nat>, outside: set<nat>,
                           d: set<nat>) {
    && scf'.Keys <= scf.Keys + inside + outside
    && forall i: nat :: i !in inside ==> SetAt(scf', i) == SetAt(scf, i) + (if i in outside then d else {})
  }

  lemma ScfGrownTrans(s0: map<nat, set<nat>>, s1: map<nat, set<nat>>, s2: map<nat, set<nat>>,
                      a: set<nat>, b: set<nat>, outside: set<nat>, d: set<nat>, e: set<nat>)
    requires ScfGrown(s0, s1, a, outside, d) && ScfGrown(s1, s2, b, outside, e)
    ensures ScfGrown(s0, s2, a + b, outside, d + e)
  {
  }

  /** No list has been made on these nodes yet. */
  ghost predicate Unplanned(ids: set<nat>, P: Plan, scf: map<nat, set<nat>>) {
    forall i :: i in ids ==> ListAt(P.mu, i) == [] && ListAt(P.chi, i) == [] && SetAt(scf, i) == {}
  }

  lemma UnplannedFrame(ids: set<nat>, P: Plan, P': Plan, scf: map<nat, set<nat>>, scf': map<nat, set<nat>>,
                       a: set<nat>, b: set<nat>, outside: set<nat>, d: set<nat>)
    requires Unplanned(ids, P, scf) && PlanChanged(P, P', a) && ScfGrown(scf, scf', b, outside, d)
    requires ids !! a && ids !! b && ids !! outside
    ensures Unplanned(ids, P', scf')
  {
    forall i | i in ids ensures ListAt(P'.mu, i) == [] && ListAt(P'.chi, i) == [] && SetAt(scf', i) == {} {
      assert PlanNoteAt(P', i) == PlanNoteAt(P, i);
    }
  }

  /** `AppendPhiDef` and what calls it, seen as a traversal of one node. */
  lemma AddedGrown(scf: map<nat, set<nat>>, scf': map<nat, set<nat>>, inside: set<nat>, outside: set<nat>, d: set<nat>)
    requires ScfAdded(scf, scf', outside, d)
    ensures ScfGrown(scf, scf', inside, outside, d)
  {
  }

  lemma NoneGrown(scf: map<nat, set<nat>>, inside: set<nat>, outside: set<nat>)
    ensures ScfGrown(scf, scf, inside, outside, {})
  {
  }

  /** A traversal of an inner statement under one more enclosing node, seen from outside that node. */
  lemma InnerGrown(scf: map<nat, set<nat>>, scf': map<nat, set<nat>>, inside: set<nat>, id: nat, outside: set<nat>,
                   d: set<nat>)
    requires ScfGrown(scf, scf', inside, outside + {id}, d) && id !in inside && id !in outside
    ensures ScfGrown(scf, scf', inside + {id}, outside, d)
    ensures SetAt(scf', id) == SetAt(scf, id) + d
  {
  }

  lemma ChainReal(syms: seq<Sym>, ids: SymIds, c: Option<nat>, v: Var)
    requires SymsValid(syms, ids) && OlderPart(syms, c, v, |syms|)
    ensures RealOf(syms, Chain(syms, c)) == Chain(syms, c)
  {
    forall i | i in Chain(syms, c) ensures i in RealOf(syms, Chain(syms, c)) {
      ChainParts(syms, ids, c, v, i);
      assert SymShape(syms, ids, i);
    }
  }

  /** A part is not among its older siblings, a whole variable not among its parts. */
  lemma {:induction false} ChainOlder(syms: seq<Sym>, c: Option<nat>, n: nat, i: nat)
    requires (c.Some? ==> c.value < n) && i in Chain(syms, c)
    ensures i < n
    decreases if c.Some? then c.value + 1 else 0
  {
    if i != c.value {
      ChainOlder(syms, syms[c.value].sibling, n, i);
    }
  }

  lemma PhiIdsPrepend(e: Encl, encl: seq<Encl>)
    ensures PhiIds([e] + encl) == PhiIds(encl) + (if e.hasPhi then {e.id} else {})
  {
    forall id | id in PhiIds(encl) + (if e.hasPhi then {e.id} else {}) ensures id in PhiIds([e] + encl) {
      if id in PhiIds(encl) {
        var x :| x in encl && x.hasPhi && x.id == id;
        assert x in [e] + encl;
      } else {
        assert e in [e] + encl;
      }
    }
  }

  lemma ChainHead(syms: seq<Sym>, i: nat)
    requires i < |syms|
    ensures i in Chain(syms, Some(i))
  {
  }

  lemma ChiSymsCons(sym: nat, pre: seq<Chi>)
    ensures ChiSyms([Chi(sym, None, None, None)] + pre) == [sym] + ChiSyms(pre)
  {
  }

  lemma SymOfPlace(syms: seq<Sym>, ids: SymIds, p: Place)
    requires SymsValid(syms, ids) && p in ids
    ensures ids[p] < |syms| && syms[ids[p]].place == p
  {
  }

  lemma RealIsSym(syms: seq<Sym>, ids: SymIds, p: Place)
    requires SymsValid(syms, ids) && p in RealPlaces(syms)
    ensures p in ids && IsSym(syms, ids[p], p)
  {
    var i :| 0 <= i < |syms| && syms[i].realOcc && syms[i].place == p;
    assert SymShape(syms, ids, i);
  }

  lemma NotOwnRelative(syms: seq<Sym>, sym: nat)
    ensures sym !in Relatives(syms, sym)
  {
  }

  lemma MuSymsCons(sym: nat, pre: seq<Mu>)
    ensures MuSyms([Mu(sym, None)] + pre) == [sym] + MuSyms(pre)
  {
  }

  lemma PlanUnchanged(P: Plan, ids: set<nat>)
    ensures PlanChanged(P, P, ids)
  {
  }

  lemma PlanWiden(P: Plan, P': Plan, ids: set<nat>, more: set<nat>)
    requires PlanChanged(P, P', ids) && ids <= more
    ensures PlanChanged(P, P', more)
  {
  }

  /** From the symbol of a whole variable the walk reaches it and everything overlapping it. */
  lemma FamilyOfWhole(syms: seq<Sym>, ids: SymIds, r: nat)
    requires SymsValid(syms, ids) && r < |syms| && syms[r].place.ix.NoIndex? && syms[r].realOcc
    ensures RealOf(syms, Family(syms, r)) == {r} + Relatives(syms, r)
    ensures RealOf(syms, Family(syms, r)) != {}
  {
    PartsOfWhole(syms, ids, r);
    FamilyStep(syms, ids, r);
    assert r in RealOf(syms, Family(syms, r));
  }

  lemma SeqParts(s: Stmt, syms: seq<Sym>, P: Plan, scf: map<nat, set<nat>>)
    requires s.Seq? && UniqueStmt(s) && Entered(s, syms) && Unplanned(StmtIds(s), P, scf)
    ensures UniqueStmt(s.first) && Entered(s.first, syms) && Unplanned(StmtIds(s.first), P, scf)
    ensures UniqueStmt(s.second) && Entered(s.second, syms) && Unplanned(StmtIds(s.second), P, scf)
    ensures StmtIds(s.first) !! StmtIds(s.second)
  {
  }

  /** Nodes that are neither visited nor enclosing keep their sets. */
  lemma KeptInside(scf: map<nat, set<nat>>, scf': map<nat, set<nat>>, inside: set<nat>, outside: set<nat>,
                   d: set<nat>, ids: set<nat>)
    requires ScfGrown(scf, scf', inside, outside, d) && ids !! inside && ids !! outside
    ensures forall i :: i in ids ==> SetAt(scf', i) == SetAt(scf, i)
  {
  }

  lemma GrownWiden(scf: map<nat, set<nat>>, scf': map<nat, set<nat>>, inside: set<nat>, more: set<nat>,
                   outside: set<nat>, d: set<nat>)
    requires ScfGrown(scf, scf', inside, outside, d) && inside <= more
    ensures ScfGrown(scf, scf', more, outside, d)
  {
  }

  lemma RetvReady(s: Stmt, syms: seq<Sym>, nodeSym: map<nat, nat>, mu: map<nat, seq<Mu>>, chi: map<nat, seq<Chi>>,
                  phi: map<nat, seq<Phi>>, scf: map<nat, set<nat>>)
    requires s.Retv? && UniqueStmt(s) && Entered(s, syms)
    requires Unplanned(StmtIds(s), PlanOf(nodeSym, mu, chi, phi), scf)
    ensures Whole(s.v) in RealPlaces(syms) && s.id != s.kid && ListAt(mu, s.id) == []
  {
    PlanOfLists(nodeSym, mu, chi, phi, s.id);
  }

  /** What a store or call needs of its parts. */
  lemma DefReady(s: Stmt, syms: seq<Sym>, nodeSym: map<nat, nat>, mu: map<nat, seq<Mu>>, chi: map<nat, seq<Chi>>,
                 phi: map<nat, seq<Phi>>, scf: map<nat, set<nat>>)
    requires s.Store? || s.StoreAt? || s.Call?
    requires UniqueStmt(s) && Entered(s, syms) && Unplanned(StmtIds(s), PlanOf(nodeSym, mu, chi, phi), scf)
    ensures ListAt(chi, s.id) == []
    ensures s.Store? ==> UniqueExpr(s.rhs) && ExprPlaces(s.rhs) <= RealPlaces(syms) && s.p in RealPlaces(syms)
    ensures s.StoreAt? ==>
              && UniqueExpr(s.rhs) && ExprPlaces(s.rhs) <= RealPlaces(syms) && Whole(s.v) in RealPlaces(syms)
              && UniqueExpr(s.sub) && ExprPlaces(s.sub) <= RealPlaces(syms) &&
                   {s.id} !! ExprIds(s.sub) !! ExprIds(s.rhs)
    ensures s.Call? ==> UniqueExpr(s.args) && ExprPlaces(s.args) <= RealPlaces(syms)
    ensures s.Call? && s.ret.Some? ==> Whole(s.ret.value) in RealPlaces(syms)
    ensures s.Store? ==> s.id !in ExprIds(s.rhs)
    ensures s.Call? ==> s.id !in ExprIds(s.args)
  {
    PlanOfLists(nodeSym, mu, chi, phi, s.id);
  }

  lemma IfReady(s: Stmt, syms: seq<Sym>, P: Plan, scf: map<nat, set<nat>>)
    requires s.If? && UniqueStmt(s) && Entered(s, syms) && Unplanned(StmtIds(s), P, scf)
    ensures UniqueExpr(s.cond) && ExprPlaces(s.cond) <= RealPlaces(syms)
    ensures UniqueStmt(s.thn) && Entered(s.thn, syms) && Unplanned(StmtIds(s.thn), P, scf)
    ensures UniqueStmt(s.els) && Entered(s.els, syms) && Unplanned(StmtIds(s.els), P, scf)
    ensures {s.id} !! ExprIds(s.cond) !! StmtIds(s.thn) !! StmtIds(s.els) && SetAt(scf, s.id) == {}
  {
  }

  lemma StoreAtPlanned(s: Stmt, syms: seq<Sym>, P0: Plan, P1: Plan, P2: Plan, P3: Plan,
                       scf: map<nat, set<nat>>, scf': map<nat, set<nat>>, out: set<nat>)
    requires s.StoreAt? && {s.id} !! ExprIds(s.sub) !! ExprIds(s.rhs)
    requires PlanChanged(P0, P1, ExprIds(s.rhs)) && ExprPlanned(s.rhs, syms, P1)
    requires PlanChanged(P1, P2, ExprIds(s.sub)) && ExprPlanned(s.sub, syms, P2)
    requires PlanChanged(P2, P3, {s.id}) && DefPlanned(s.id, Whole(s.v), syms, P3)
    requires ScfAdded(scf, scf', out, {SymOf(P3, s.id)} + Relatives(syms, SymOf(P3, s.id)))
    ensures MuChiPlanned(s, syms, P3) && ScfPlanned(s, syms, P3, scf') && PlanChanged(P0, P3, StmtIds(s))
    ensures ScfGrown(scf, scf', StmtIds(s), out, Defs(s, syms, P3)) && LoopVars(s) == {}
  {
    hide PlanChanged, PlanSame, DefPlanned, NodeSymIs, ScfAdded, ScfGrown, Relatives, SymOf;
    AddedGrown(scf, scf', StmtIds(s), out, Defs(s, syms, P3));
    PlanTrans(P1, P2, P3, ExprIds(s.sub), {s.id});
    PlanDisjoint(P1, P3, ExprIds(s.sub) + {s.id}, ExprIds(s.rhs));
    PlanDisjoint(P2, P3, {s.id}, ExprIds(s.sub));
    ExprFrame(s.rhs, syms, P1, P3);
    ExprFrame(s.sub, syms, P2, P3);
    PlanTrans(P0, P1, P3, ExprIds(s.rhs), ExprIds(s.sub) + {s.id});
    PlanWiden(P0, P3, ExprIds(s.rhs) + (ExprIds(s.sub) + {s.id}), StmtIds(s));
  }

  /** An `if` is planned when its parts are, one after the other. */
  lemma IfPlanned(s: Stmt, syms: seq<Sym>, P0: Plan, P1: Plan, P2: Plan, P3: Plan, scf0: map<nat, set<nat>>,
                  scf2: map<nat, set<nat>>, scf3: map<nat, set<nat>>, out: set<nat>, out': set<nat>)
    requires s.If? && {s.id} !! ExprIds(s.cond) !! StmtIds(s.thn) !! StmtIds(s.els)
    requires out' == out + {s.id} && out !! StmtIds(s) && SetAt(scf0, s.id) == {}
    requires PlanChanged(P0, P1, ExprIds(s.cond)) && ExprPlanned(s.cond, syms, P1)
    requires PlanChanged(P1, P2, StmtIds(s.thn)) && MuChiPlanned(s.thn, syms, P2) && ScfPlanned(s.thn, syms, P2, scf2)
    requires PlanChanged(P2, P3, StmtIds(s.els)) && MuChiPlanned(s.els, syms, P3) && ScfPlanned(s.els, syms, P3, scf3)
    requires ScfGrown(scf0, scf2, StmtIds(s.thn), out', Defs(s.thn, syms, P2))
    requires ScfGrown(scf2, scf3, StmtIds(s.els), out', Defs(s.els, syms, P3))
    ensures MuChiPlanned(s, syms, P3) && ScfPlanned(s, syms, P3, scf3) && PlanChanged(P0, P3, StmtIds(s))
    ensures ScfGrown(scf0, scf3, StmtIds(s), out, Defs(s, syms, P3))
  {
    hide PlanChanged, PlanSame, ScfGrown, Relatives, SymOf, DefPlanned, NodeSymIs, NoDup, Elems;
    var c, a, b := ExprIds(s.cond), StmtIds(s.thn), StmtIds(s.els);
    PlanDisjoint(P2, P3, b, a);
    MuChiFrame(s.thn, syms, P2, P3);
    KeptInside(scf2, scf3, b, out', Defs(s.els, syms, P3), a);
    ScfFrame(s.thn, syms, P2, P3, scf2, scf3);
    PlanTrans(P1, P2, P3, a, b);
    PlanDisjoint(P1, P3, a + b, c);
    ExprFrame(s.cond, syms, P1, P3);
    PlanTrans(P0, P1, P3, c, a + b);
    PlanWiden(P0, P3, c + (a + b), StmtIds(s));
    ScfGrownTrans(scf0, scf2, scf3, a, b, out', Defs(s.thn, syms, P3), Defs(s.els, syms, P3));
    InnerGrown(scf0, scf3, a + b, s.id, out, Defs(s, syms, P3));
    GrownWiden(scf0, scf3, a + b + {s.id}, StmtIds(s), out, Defs(s, syms, P3));
  }

  lemma LoopReady(s: Stmt, syms: seq<Sym>, P: Plan, scf: map<nat, set<nat>>)
    requires s.Loop? && UniqueStmt(s) && Entered(s, syms) && Unplanned(StmtIds(s), P, scf)
    ensures UniqueExpr(s.init) && ExprPlaces(s.init) <= RealPlaces(syms)
    ensures UniqueExpr(s.cmp) && ExprPlaces(s.cmp) <= RealPlaces(syms)
    ensures UniqueExpr(s.step) && ExprPlaces(s.step) <= RealPlaces(syms)
    ensures UniqueStmt(s.body) && Entered(s.body, syms) && Unplanned(StmtIds(s.body), P, scf)
    ensures {s.id} !! ExprIds(s.init) !! ExprIds(s.cmp) !! ExprIds(s.step) !! StmtIds(s.body)
    ensures s.init.id in ExprIds(s.init) && s.step.id in ExprIds(s.step)
    ensures SetAt(scf, s.id) == {} && Whole(s.iv) in RealPlaces(syms)
    ensures forall i :: 0 <= i < |syms| && syms[i].place.ix.At? ==> syms[i].place.v != s.iv
  {
  }

  /** The expressions of a loop are planned at its end, the roots with the induction variable. */
  lemma LoopPlanned(s: Stmt, syms: seq<Sym>, ids: SymIds, P3: Plan, P4: Plan, P5: Plan)
    requires s.Loop? && SymsValid(syms, ids) && UniqueExpr(s.init) && UniqueExpr(s.step)
    requires {s.id} !! ExprIds(s.init) !! ExprIds(s.cmp) !! ExprIds(s.step) !! StmtIds(s.body)
    requires s.init.id in ExprIds(s.init) && s.step.id in ExprIds(s.step)
    requires ExprPlanned(s.init, syms, P3) && ExprPlanned(s.cmp, syms, P3) && ExprPlanned(s.step, syms, P3)
    requires PlanChanged(P3, P4, StmtIds(s.body)) && PlanChanged(P4, P5, {s.init.id, s.step.id})
    requires NodeSymIs(s.init.id, Whole(s.iv), syms, P5) && NodeSymIs(s.step.id, Whole(s.iv), syms, P5)
    requires forall i :: 0 <= i < |syms| && syms[i].place.ix.At? ==> syms[i].place.v != s.iv
    ensures RootPlanned(s.init, s.iv, syms, P5) && RootPlanned(s.step, s.iv, syms, P5)
    ensures ExprPlanned(s.cmp, syms, P5) && Relatives(syms, SymOf(P5, s.init.id)) == {}
  {
    assert PlanSame(P3, P5, ExprIds(s.init) - {s.init.id});
    RootGiven(s.init, s.iv, syms, P3, P5);
    assert PlanSame(P3, P5, ExprIds(s.cmp));
    ExprFrame(s.cmp, syms, P3, P5);
    assert PlanSame(P3, P5, ExprIds(s.step) - {s.step.id});
    RootGiven(s.step, s.iv, syms, P3, P5);
    NoRelatives(syms, ids, SymOf(P5, s.init.id));
  }

  /** What a loop does to the sets of modified symbols: first its body, then the induction variable. */
  lemma LoopScf(s: Stmt, syms: seq<Sym>, P4: Plan, P5: Plan, scf0: map<nat, set<nat>>, scf4: map<nat, set<nat>>,
                scf5: map<nat, set<nat>>, out: set<nat>, out': set<nat>)
    requires s.Loop? && s.id !in StmtIds(s.body) && {s.init.id, s.step.id} !! StmtIds(s.body)
    requires out' == out + {s.id} && out !! StmtIds(s) && SetAt(scf0, s.id) == {}
    requires StmtIds(s.body) <= StmtIds(s) && s.id in StmtIds(s)
    requires MuChiPlanned(s.body, syms, P4) && ScfPlanned(s.body, syms, P4, scf4)
    requires PlanChanged(P4, P5, {s.init.id, s.step.id})
    requires ScfGrown(scf0, scf4, StmtIds(s.body), out', Defs(s.body, syms, P4))
    requires ScfAdded(scf4, scf5, out', {SymOf(P5, s.init.id)})
    ensures MuChiPlanned(s.body, syms, P5)
    ensures ScfPlanned(s, syms, P5, scf5) && ScfGrown(scf0, scf5, StmtIds(s), out, Defs(s, syms, P5))
  {
    hide ScfGrown, ScfAdded, PlanChanged, PlanSame, MuChiPlanned, Relatives, StmtIds, ExprIds, SymOf;
    var b, iv := StmtIds(s.body), SymOf(P5, s.init.id);
    assert out' !! b;
    PlanDisjoint(P4, P5, {s.init.id, s.step.id}, b);
    MuChiFrame(s.body, syms, P4, P5);
    AddedGrown(scf4, scf5, {}, out', {iv});
    KeptInside(scf4, scf5, {}, out', {iv}, b);
    ScfFrame(s.body, syms, P4, P5, scf4, scf5);
    ScfGrownTrans(scf0, scf4, scf5, b, {}, out', Defs(s.body, syms, P5), {iv});
    assert b + {} == b && Defs(s.body, syms, P5) + {iv} == Defs(s, syms, P5);
    InnerGrown(scf0, scf5, b, s.id, out, Defs(s, syms, P5));
    GrownWiden(scf0, scf5, b + {s.id}, StmtIds(s), out, Defs(s, syms, P5));
  }

  /** A variable without parts overlaps no other symbol. */
  lemma NoRelatives(syms: seq<Sym>, ids: SymIds, r: nat)
    requires SymsValid(syms, ids) && r < |syms| && syms[r].place.ix.NoIndex?
    requires forall i :: 0 <= i < |syms| && syms[i].place.ix.At? ==> syms[i].place.v != syms[r].place.v
    ensures Relatives(syms, r) == {}
  {
    forall i: nat ensures i !in Relatives(syms, r) {
      if i < |syms| {
        assert SymShape(syms, ids, i) && SymShape(syms, ids, r);
      }
    }
  }

  lemma ScfAddedNone(scf: map<nat, set<nat>>, ids: set<nat>)
    ensures ScfAdded(scf, scf, ids, {})
  {
  }

  lemma ShapeOf(syms: seq<Sym>, ids: SymIds, i: nat)
    requires SymsValid(syms, ids) && i < |syms|
    ensures SymShape(syms, ids, i)
  {
  }

  /** One step of the recursive walk: the symbols under the child or sibling link, and the symbol itself. */
  lemma FamilyStep(syms: seq<Sym>, ids: SymIds, i: nat)
    requires SymsValid(syms, ids) && i < |syms|
    ensures var s := syms[i];
            && Family(syms, i) - {i} == (if s.child.Some? then Chain(syms, s.child)
                                         else if s.sibling.Some? then Chain(syms, s.sibling) else {})
            && i in Family(syms, i)
            && (s.child.Some? ==> Family(syms, s.child.value) == Chain(syms, s.child))
            && (s.sibling.Some? ==> Family(syms, s.sibling.value) == Chain(syms, s.sibling))
            && RealOf(syms, Family(syms, i)) == (Family(syms, i) - {i}) + (if s.realOcc then {i} else {})
  {
    assert SymShape(syms, ids, i);
    var s := syms[i];
    if s.place.ix.At? {
      ChainReal(syms, ids, s.sibling, s.place.v);
      forall j | j in Chain(syms, s.sibling) ensures j != i { ChainOlder(syms, s.sibling, i, j); }
      assert Family(syms, i) == {i} + Chain(syms, s.sibling);
    } else {
      ChainReal(syms, ids, s.child, s.place.v);
      forall j | j in Chain(syms, s.child) ensures j != i { ChainParts(syms, ids, s.child, s.place.v, j); }
    }
  }

  class SimpleBuilderCtx {
    const cont: SsaContainer
    var symMap: SymIds
    /** Symbols modified inside each `if` and `do_loop`. */
    var scfMap: map<nat, set<nat>>

    constructor (cont: SsaContainer)
      ensures this.cont == cont && symMap == map[] && scfMap == map[]
    {
      this.cont, symMap, scfMap := cont, map[], map[];
    }

    /** The table is well linked, and there is nothing but zero versions. */
    ghost predicate ValidSyms()
      reads this, cont
    {
      && SymsValid(cont.syms, symMap)
      && |cont.vers| == |cont.syms|
      && forall i :: 0 <= i < |cont.vers| ==> cont.vers[i] == Ver(i, None, Unknown)
    }

    // ----- phase 1: symbols ---------------------------------------------------

    /** Finds or creates the symbol of `p`; a part is linked in front of its siblings. */
    method EnterVar(p: Place, realOcc: bool)
      requires ValidSyms() && (p.ix.At? ==> realOcc && Whole(p.v) in symMap)
      modifies this`symMap, cont`syms, cont`vers
      ensures ValidSyms() && symMap.Keys == old(symMap.Keys) + {p}
      ensures RealPlaces(cont.syms) == old(RealPlaces(cont.syms)) + (if realOcc then {p} else {})
    {
      if p in symMap {
        var sym := symMap[p];
        if realOcc && !cont.syms[sym].realOcc {
          MarkRealValid(cont.syms, symMap, sym);
          cont.syms := cont.syms[sym := cont.syms[sym].(realOcc := true)];
        } else if realOcc {
          assert p in RealPlaces(cont.syms);
        }
      } else {
        ghost var syms := cont.syms;
        var sym := cont.NewSym(p);
        if realOcc {
          cont.syms := cont.syms[sym := cont.syms[sym].(realOcc := true)];
        }
        symMap := symMap[p := sym];
        if p.ix.At? {
          var r := symMap[Whole(p.v)];
          cont.syms := cont.syms[sym := cont.syms[sym].(parent := Some(r))];
          cont.syms := cont.syms[sym := cont.syms[sym].(sibling := cont.syms[r].child)];
          cont.syms := cont.syms[r := cont.syms[r].(child := Some(sym))];
          NewPartValid(syms, old(symMap), p);
          assert cont.syms == syms[r := syms[r].(child := Some(|syms|))]
                              + [Sym(p, Some(r), syms[r].child, None, |syms|, true)];
        } else {
          NewWholeValid(syms, old(symMap), p, realOcc);
          assert cont.syms == syms + [Sym(p, None, None, None, |syms|, realOcc)];
        }
      }
    }

    method SymtabExpr(e: Expr)
      requires ValidSyms()
      modifies this`symMap, cont`syms, cont`vers
      ensures ValidSyms() && symMap.Keys == old(symMap.Keys) + WithWholes(ExprPlaces(e))
      ensures RealPlaces(cont.syms) == old(RealPlaces(cont.syms)) + ExprPlaces(e)
      decreases e
    {
      hide WithWholes, RealPlaces, SymsValid;
      match e
      case Leaf(_, _) => WholesOne(Whole(Var(Datum, 0)));
      case Node(_, _, l, r) =>
        WholesUnion(ExprPlaces(l), ExprPlaces(r));
        SymtabExpr(l);
        SymtabExpr(r);
      case Load(_, p) =>
        WholesOne(p);
        EnterPlace(p);
      case LoadAt(_, v, sub) =>
        WholesOne(Whole(v));
        WholesUnion({Whole(v)}, ExprPlaces(sub));
        SymtabExpr(sub);
        EnterVar(Whole(v), true);
      case TableAt(_, _, _) => WholesOne(Whole(Var(Datum, 0)));
    }

    /** A part is entered after the whole variable, which need not really occur. */
    method EnterPlace(p: Place)
      requires ValidSyms()
      modifies this`symMap, cont`syms, cont`vers
      ensures ValidSyms() && symMap.Keys == old(symMap.Keys) + {p, Whole(p.v)}
      ensures RealPlaces(cont.syms) == old(RealPlaces(cont.syms)) + {p}
    {
      if p.ix.At? {
        EnterVar(Whole(p.v), false);
      }
      EnterVar(p, true);
    }

    method SymtabStmt(s: Stmt)
      requires ValidSyms()
      modifies this`symMap, cont`syms, cont`vers
      ensures ValidSyms() && symMap.Keys == old(symMap.Keys) + WithWholes(StmtPlaces(s))
      ensures RealPlaces(cont.syms) == old(RealPlaces(cont.syms)) + StmtPlaces(s)
      decreases s, 1
    {
      hide WithWholes, RealPlaces, SymsValid;
      match s
      case Skip => WholesOne(Whole(Var(Datum, 0)));
      case Seq(a, b) =>
        WholesUnion(StmtPlaces(a), StmtPlaces(b));
        SymtabStmt(a);
        SymtabStmt(b);
      case Store(_, p, rhs) =>
        WholesOne(p);
        WholesUnion({p}, ExprPlaces(rhs));
        SymtabExpr(rhs);
        EnterPlace(p);
      case StoreAt(_, v, sub, rhs) =>
        WholesOne(Whole(v));
        WholesUnion({Whole(v)}, ExprPlaces(sub));
        WholesUnion({Whole(v)} + ExprPlaces(sub), ExprPlaces(rhs));
        SymtabExpr(rhs);
        SymtabExpr(sub);
        EnterVar(Whole(v), true);
      case Call(_, _, args, ret) =>
        SymtabExpr(args);
        if ret.Some? {
          WholesOne(Whole(ret.value));
          WholesUnion(ExprPlaces(args), {Whole(ret.value)});
          EnterVar(Whole(ret.value), true);
        } else {
          WholesOne(Whole(Var(Datum, 0)));
          WholesUnion(ExprPlaces(args), {});
        }
      case Retv(_, _, v) =>
        WholesOne(Whole(v));
        EnterVar(Whole(v), true);
      case If(_, c, a, b) =>
        WholesUnion(ExprPlaces(c), StmtPlaces(a));
        WholesUnion(ExprPlaces(c) + StmtPlaces(a), StmtPlaces(b));
        SymtabExpr(c);
        SymtabStmt(a);
        SymtabStmt(b);
      case Loop(_, _, _, _, _, _) => SymtabLoop(s);
    }

    method SymtabLoop(s: Stmt)
      requires ValidSyms() && s.Loop?
      modifies this`symMap, cont`syms, cont`vers
      ensures ValidSyms() && symMap.Keys == old(symMap.Keys) + WithWholes(StmtPlaces(s))
      ensures RealPlaces(cont.syms) == old(RealPlaces(cont.syms)) + StmtPlaces(s)
      decreases s, 0
    {
      hide WithWholes, RealPlaces, SymsValid;
      var ps := {Whole(s.iv)};
      WholesOne(Whole(s.iv));
      WholesUnion(ps, ExprPlaces(s.init));
      WholesUnion(ps + ExprPlaces(s.init), ExprPlaces(s.cmp));
      WholesUnion(ps + ExprPlaces(s.init) + ExprPlaces(s.cmp), ExprPlaces(s.step));
      WholesUnion(ps + ExprPlaces(s.init) + ExprPlaces(s.cmp) + ExprPlaces(s.step), StmtPlaces(s.body));
      EnterVar(Whole(s.iv), true);
      SymtabExpr(s.init);
      SymtabExpr(s.cmp);
      SymtabExpr(s.step);
      SymtabStmt(s.body);
    }

    method SymtabFunc(f: Func)
      requires ValidSyms()
      modifies this`symMap, cont`syms, cont`vers
      ensures ValidSyms()
      ensures symMap.Keys == old(symMap.Keys) + FormalWholes(f.formals) + WithWholes(StmtPlaces(f.body))
      ensures RealPlaces(cont.syms) == old(RealPlaces(cont.syms)) + StmtPlaces(f.body)
    {
      var i := 0;
      while i < |f.formals|
        invariant 0 <= i <= |f.formals| && ValidSyms()
        invariant symMap.Keys == old(symMap.Keys) + FormalWholes(f.formals[..i])
        invariant RealPlaces(cont.syms) == old(RealPlaces(cont.syms))
      {
        EnterVar(Whole(f.formals[i].v), false);
        assert f.formals[..i + 1] == f.formals[..i] + [f.formals[i]];
        i := i + 1;
      }
      assert f.formals[..|f.formals|] == f.formals;
      SymtabStmt(f.body);
    }

    // ----- phase 2: mu and chi lists -------------------------------------------

    /** Adds `sym` to the sets of all enclosing statements that carry phis. */
    method AppendPhiDef(encl: seq<Encl>, sym: nat)
      modifies this`scfMap
      ensures ScfAdded(old(scfMap), scfMap, PhiIds(encl), {sym})
    {
      var k := |encl|;
      while k > 0
        invariant 0 <= k <= |encl|
        invariant ScfAdded(old(scfMap), scfMap, PhiIds(encl[k..]), {sym})
      {
        k := k - 1;
        assert encl[k..] == [encl[k]] + encl[k + 1..];
        PhiIdsPrepend(encl[k], encl[k + 1..]);
        if encl[k].hasPhi {
          scfMap := scfMap[encl[k].id := SetAt(scfMap, encl[k].id) + {sym}];
        }
      }
      assert encl[0..] == encl;
    }

    /** Chis for the real symbols reached from `sym` over child and sibling links, in front of `pre`. */
    method HandleChildDef(sym: nat, encl: seq<Encl>, pre: seq<Chi>) returns (list: seq<Chi>, ghost added: seq<nat>)
      requires ValidSyms() && sym < |cont.syms|
      modifies this`scfMap
      ensures ChiSyms(list) == added + ChiSyms(pre) && NoDup(added)
      ensures Elems(added) == RealOf(cont.syms, Family(cont.syms, sym))
      ensures ScfAdded(old(scfMap), scfMap, PhiIds(encl), Elems(added))
      decreases cont.syms[sym].place.ix.NoIndex?, sym
    {
      hide ScfAdded, SymsValid, PhiIds, ChiSyms, RealOf, Chain, Family;
      ShapeOf(cont.syms, symMap, sym);
      FamilyStep(cont.syms, symMap, sym);
      var s := cont.syms[sym];
      list, added := pre, [];
      ScfAddedNone(scfMap, PhiIds(encl));
      assert Elems(added) == {} && added + ChiSyms(pre) == ChiSyms(pre);
      if s.child.Some? {
        list, added := HandleChildDef(s.child.value, encl, list);
        ChainReal(cont.syms, symMap, s.child, s.place.v);
        ChainHead(cont.syms, s.child.value);
        assert s.child.value in Elems(added);
        assert list != [];
      }
      if s.sibling.Some? {
        list, added := HandleChildDef(s.sibling.value, encl, list);
        ChainReal(cont.syms, symMap, s.sibling, s.place.v);
        ChainHead(cont.syms, s.sibling.value);
        assert s.sibling.value in Elems(added);
        assert list != [];
      }
      ghost var below := added;
      assert Elems(below) == Family(cont.syms, sym) - {sym};
      if s.realOcc {
        ghost var scf := scfMap;
        AppendPhiDef(encl, sym);
        ChiSymsCons(sym, list);
        assert [sym] + (added + ChiSyms(pre)) == ([sym] + added) + ChiSyms(pre);
        list := [Chi(sym, None, None, None)] + list;
        added := [sym] + added;
        assert sym !in Elems(below);
        assert Elems(added) == Elems(below) + {sym};
        ScfAddedTrans(old(scfMap), scf, scfMap, PhiIds(encl), Elems(below), {sym});
      }
    }

    /** Chis for every real symbol that overlaps `sym` without being it. */
    method HandleAliasDef(sym: nat, encl: seq<Encl>, pre: seq<Chi>) returns (list: seq<Chi>, ghost added: seq<nat>)
      requires ValidSyms() && sym < |cont.syms|
      modifies this`scfMap
      ensures ChiSyms(list) == added + ChiSyms(pre) && NoDup(added)
      ensures Elems(added) == Relatives(cont.syms, sym)
      ensures ScfAdded(old(scfMap), scfMap, PhiIds(encl), Elems(added))
    {
      hide ScfAdded, SymsValid, PhiIds, Related, Relatives, ChiSyms;
      ShapeOf(cont.syms, symMap, sym);
      list, added := pre, [];
      ScfAddedNone(scfMap, PhiIds(encl));
      assert Elems(added) == {};
      assert added + ChiSyms(pre) == ChiSyms(pre);
      var s := cont.syms[sym];
      if s.child.Some? {
        list, added := HandleChildDef(s.child.value, encl, list);
        FamilyStep(cont.syms, symMap, sym);
        ChainReal(cont.syms, symMap, s.child, s.place.v);
        ChainHead(cont.syms, s.child.value);
        assert s.child.value in Elems(added);
        assert list != [];
      }
      if s.place.ix.NoIndex? {
        PartsOfWhole(cont.syms, symMap, sym);
      } else {
        WholeOfPart(cont.syms, symMap, sym);
      }
      var parent := s.parent;
      while parent.Some?
        invariant parent.Some? ==>
                    parent == s.parent && parent.value < |cont.syms| && cont.syms[parent.value].parent == None
        invariant parent.Some? ==> added == [] && list == pre && ScfAdded(old(scfMap), scfMap, PhiIds(encl), {})
        invariant parent.None? ==>
                    && ChiSyms(list) == added + ChiSyms(pre) && NoDup(added)
                    && Elems(added) == Relatives(cont.syms, sym)
                    && ScfAdded(old(scfMap), scfMap, PhiIds(encl), Elems(added))
        decreases parent.Some?
      {
        if cont.syms[parent.value].realOcc {
          ghost var scf := scfMap;
          AppendPhiDef(encl, parent.value);
          list := [Chi(parent.value, None, None, None)] + list;
          ChiSymsCons(parent.value, pre);
          added := [parent.value];
          assert Elems(added) == {parent.value};
          ScfAddedTrans(old(scfMap), scf, scfMap, PhiIds(encl), {}, {parent.value});
          assert {} + {parent.value} == {parent.value};
        }
        parent := cont.syms[parent.value].parent;
      }
    }

    /**
      A definition of `p` at node `node`.  A direct definition gives the node its
      symbol; an alias definition (a formal, at the function entry) puts the
      symbol itself on the chi list.  Either way the overlapping symbols follow.
     */
    method HandleVarDef(p: Place, node: nat, encl: seq<Encl>, aliasDef: bool) returns (ghost added: seq<nat>)
      requires ValidSyms() && p in symMap
      modifies cont`nodeSym, cont`chi, this`scfMap
      ensures ChiSyms(ListAt(cont.chi, node)) == added + ChiSyms(old(ListAt(cont.chi, node))) && NoDup(added)
      ensures Elems(added) == Relatives(cont.syms, symMap[p])
                              + (if aliasDef && cont.syms[symMap[p]].realOcc then {symMap[p]} else {})
      ensures cont.nodeSym == if aliasDef then old(cont.nodeSym) else old(cont.nodeSym)[node := symMap[p]]
      ensures forall i :: i != node ==> ListAt(cont.chi, i) == ListAt(old(cont.chi), i)
      ensures ScfAdded(old(scfMap), scfMap, PhiIds(encl), Elems(added) + (if aliasDef then {} else {symMap[p]}))
    {
      hide ScfAdded, SymsValid, PhiIds, Related, Relatives, ChiSyms;
      SymOfPlace(cont.syms, symMap, p);
      var sym := symMap[p];
      ghost var pre := ListAt(cont.chi, node);
      var list := ListAt(cont.chi, node);
      ghost var self: seq<nat> := [];
      ScfAddedNone(scfMap, PhiIds(encl));
      if aliasDef {
        if cont.syms[sym].realOcc {
          ChiSymsCons(sym, list);
          list := [Chi(sym, None, None, None)] + list;
          self := [sym];
          AppendPhiDef(encl, sym);
        }
      } else {
        cont.nodeSym := cont.nodeSym[node := sym];
        AppendPhiDef(encl, sym);
      }
      ghost var scf := scfMap;
      assert ChiSyms(list) == self + ChiSyms(pre);
      ghost var others;
      list, others := HandleAliasDef(sym, encl, list);
      added := others + self;
      NotOwnRelative(cont.syms, sym);
      assert Elems(added) == Elems(others) + Elems(self);
      assert sym !in Elems(others);
      assert others + (self + ChiSyms(pre)) == added + ChiSyms(pre);
      ScfAddedTrans(old(scfMap), scf, scfMap, PhiIds(encl), if aliasDef then Elems(self) else {sym}, Elems(others));
      assert (if aliasDef then Elems(self) else {sym}) + Elems(others)
             == Elems(added) + (if aliasDef then {} else {sym});
      if list != ListAt(cont.chi, node) {
        cont.chi := cont.chi[node := list];
      }
    }

    /** A store or a call result: the node is planned as a definition of `p`. */
    method HandleDirectDef(p: Place, node: nat, encl: seq<Encl>)
      requires ValidSyms() && p in RealPlaces(cont.syms) && ListAt(cont.chi, node) == []
      modifies cont`nodeSym, cont`chi, this`scfMap
      ensures DefPlanned(node, p, cont.syms, cont.PlanNow())
      ensures PlanChanged(old(cont.PlanNow()), cont.PlanNow(), {node})
      ensures ScfAdded(old(scfMap), scfMap, PhiIds(encl),
                       {SymOf(cont.PlanNow(), node)} + Relatives(cont.syms, SymOf(cont.PlanNow(), node)))
    {
      hide ScfAdded, SymsValid, PhiIds, Related, Relatives, RealPlaces;
      RealIsSym(cont.syms, symMap, p);
      ghost var V0 := cont.PlanNow();
      ghost var nodeSym, chi := cont.nodeSym, cont.chi;
      ghost var added := HandleVarDef(p, node, encl, false);
      assert added + [] == added;
      PlanOfLists(cont.nodeSym, cont.mu, cont.chi, cont.phi, node);
      forall i | i != node ensures PlanNoteAt(cont.PlanNow(), i) == PlanNoteAt(V0, i) {
        PlanOfLists(nodeSym, cont.mu, chi, cont.phi, i);
        PlanOfLists(cont.nodeSym, cont.mu, cont.chi, cont.phi, i);
      }
      assert Elems(added) + {symMap[p]} == {symMap[p]} + Relatives(cont.syms, symMap[p]);
    }

    method HandleVarUse(p: Place, node: nat)
      requires ValidSyms() && p in symMap
      modifies cont`nodeSym
      ensures cont.nodeSym == old(cont.nodeSym)[node := symMap[p]]
      ensures p in RealPlaces(cont.syms) ==> NodeSymIs(node, p, cont.syms, cont.PlanNow())
      ensures PlanChanged(old(cont.PlanNow()), cont.PlanNow(), {node})
    {
      if p in RealPlaces(cont.syms) {
        RealIsSym(cont.syms, symMap, p);
      }
      cont.nodeSym := cont.nodeSym[node := symMap[p]];
    }

    method MuChiExpr(e: Expr)
      requires ValidSyms() && UniqueExpr(e) && ExprPlaces(e) <= RealPlaces(cont.syms)
      modifies cont`nodeSym
      ensures ExprPlanned(e, cont.syms, cont.PlanNow())
      ensures PlanChanged(old(cont.PlanNow()), cont.PlanNow(), ExprIds(e))
      decreases e
    {
      hide RealPlaces, SymsValid, PlanChanged, PlanSame;
      match e
      case Leaf(_, _) => PlanUnchanged(cont.PlanNow(), ExprIds(e));
      case Node(_, _, l, r) =>
        ghost var P0 := cont.PlanNow();
        MuChiExpr(l);
        ghost var P1 := cont.PlanNow();
        MuChiExpr(r);
        PlanDisjoint(P1, cont.PlanNow(), ExprIds(r), ExprIds(l));
        ExprFrame(l, cont.syms, P1, cont.PlanNow());
        PlanTrans(P0, P1, cont.PlanNow(), ExprIds(l), ExprIds(r));
        PlanWiden(P0, cont.PlanNow(), ExprIds(l) + ExprIds(r), ExprIds(e));
      case Load(id, p) =>
        RealIsSym(cont.syms, symMap, p);
        HandleVarUse(p, id);
      case LoadAt(id, v, sub) =>
        ghost var P0 := cont.PlanNow();
        MuChiExpr(sub);
        ghost var P1 := cont.PlanNow();
        RealIsSym(cont.syms, symMap, Whole(v));
        HandleVarUse(Whole(v), id);
        PlanDisjoint(P1, cont.PlanNow(), {id}, ExprIds(sub));
        ExprFrame(sub, cont.syms, P1, cont.PlanNow());
        PlanTrans(P0, P1, cont.PlanNow(), ExprIds(sub), {id});
        PlanWiden(P0, cont.PlanNow(), ExprIds(sub) + {id}, ExprIds(e));
      case TableAt(_, _, _) => PlanUnchanged(cont.PlanNow(), ExprIds(e));
    }

    /** Mus for the real symbols reached from `sym`, in front of `pre`. */
    method HandleChildUse(sym: nat, pre: seq<Mu>) returns (list: seq<Mu>, ghost added: seq<nat>)
      requires ValidSyms() && sym < |cont.syms|
      ensures MuSyms(list) == added + MuSyms(pre) && NoDup(added)
      ensures Elems(added) == RealOf(cont.syms, Family(cont.syms, sym))
      decreases cont.syms[sym].place.ix.NoIndex?, sym
    {
      hide SymsValid, MuSyms, RealOf, Chain, Family;
      ShapeOf(cont.syms, symMap, sym);
      FamilyStep(cont.syms, symMap, sym);
      var s := cont.syms[sym];
      list, added := pre, [];
      assert Elems(added) == {} && added + MuSyms(pre) == MuSyms(pre);
      if s.child.Some? {
        list, added := HandleChildUse(s.child.value, list);
        ChainReal(cont.syms, symMap, s.child, s.place.v);
        ChainHead(cont.syms, s.child.value);
        assert s.child.value in Elems(added);
        assert list != [];
      }
      if s.sibling.Some? {
        list, added := HandleChildUse(s.sibling.value, list);
        ChainReal(cont.syms, symMap, s.sibling, s.place.v);
        ChainHead(cont.syms, s.sibling.value);
        assert s.sibling.value in Elems(added);
        assert list != [];
      }
      ghost var below := added;
      assert Elems(below) == Family(cont.syms, sym) - {sym};
      if s.realOcc {
        MuSymsCons(sym, list);
        assert [sym] + (added + MuSyms(pre)) == ([sym] + added) + MuSyms(pre);
        list := [Mu(sym, None)] + list;
        added := [sym] + added;
        assert sym !in Elems(below);
        assert Elems(added) == Elems(below) + {sym};
      }
    }

    method MuChiRetv(s: Stmt)
      requires s.Retv? && ValidSyms() && Whole(s.v) in RealPlaces(cont.syms) && s.id != s.kid
      requires ListAt(cont.mu, s.id) == []
      modifies cont`nodeSym, cont`mu
      ensures MuChiPlanned(s, cont.syms, cont.PlanNow())
      ensures PlanChanged(old(cont.PlanNow()), cont.PlanNow(), StmtIds(s))
    {
      hide SymsValid, RealPlaces, Relatives, Related, Chain, NoDup;
      ghost var nodeSym, mu, P0 := cont.nodeSym, cont.mu, cont.PlanNow();
      RealIsSym(cont.syms, symMap, Whole(s.v));
      HandleVarUse(Whole(s.v), s.kid);
      var sym := symMap[Whole(s.v)];
      ghost var added;
      var list;
      list, added := HandleChildUse(sym, ListAt(cont.mu, s.id));
      assert added + [] == added;
      FamilyOfWhole(cont.syms, symMap, sym);
      assert sym in Elems(added);
      assert list != [];
      cont.mu := cont.mu[s.id := list];
      PlanOfLists(cont.nodeSym, cont.mu, cont.chi, cont.phi, s.id);
      forall i | i !in StmtIds(s) ensures PlanNoteAt(cont.PlanNow(), i) == PlanNoteAt(P0, i) {
        PlanOfLists(nodeSym, mu, cont.chi, cont.phi, i);
        PlanOfLists(cont.nodeSym, cont.mu, cont.chi, cont.phi, i);
      }
    }

    /** The induction variable is marked and goes on the roots of init and step; the loop defines it. */
    method HandleDoLoopIv(s: Stmt, encl: seq<Encl>)
      requires s.Loop? && ValidSyms() && Whole(s.iv) in RealPlaces(cont.syms)
      modifies cont`nodeSym, cont`ivSyms, this`scfMap
      ensures NodeSymIs(s.init.id, Whole(s.iv), cont.syms, cont.PlanNow())
      ensures NodeSymIs(s.step.id, Whole(s.iv), cont.syms, cont.PlanNow())
      ensures PlanChanged(old(cont.PlanNow()), cont.PlanNow(), {s.init.id, s.step.id})
      ensures ScfAdded(old(scfMap), scfMap, PhiIds(encl), {SymOf(cont.PlanNow(), s.init.id)})
      ensures cont.ivSyms == old(cont.ivSyms) + SymsOf(cont.syms, {s.iv})
    {
      RealIsSym(cont.syms, symMap, Whole(s.iv));
      OneSymOf(cont.syms, symMap, s.iv);
      hide ScfAdded, SymsValid, PhiIds, RealPlaces, SymsOf;
      var sym := symMap[Whole(s.iv)];
      cont.ivSyms := cont.ivSyms + {sym};
      cont.nodeSym := cont.nodeSym[s.init.id := sym];
      cont.nodeSym := cont.nodeSym[s.step.id := sym];
      AppendPhiDef(encl, sym);
    }

    method MuChiStmt(s: Stmt, encl: seq<Encl>)
      requires ValidSyms() && UniqueStmt(s) && Entered(s, cont.syms) && PhiIds(encl) !! StmtIds(s)
      requires Unplanned(StmtIds(s), cont.PlanNow(), scfMap)
      modifies cont`nodeSym, cont`mu, cont`chi, cont`ivSyms, this`scfMap
      ensures MuChiPlanned(s, cont.syms, cont.PlanNow()) && ScfPlanned(s, cont.syms, cont.PlanNow(), scfMap)
      ensures PlanChanged(old(cont.PlanNow()), cont.PlanNow(), StmtIds(s))
      ensures ScfGrown(old(scfMap), scfMap, StmtIds(s), PhiIds(encl), Defs(s, cont.syms, cont.PlanNow()))
      ensures cont.ivSyms == old(cont.ivSyms) + SymsOf(cont.syms, LoopVars(s))
      decreases s, 1
    {
      hide SymsValid, RealPlaces, Relatives, Related, PhiIds, PlanSame, ScfAdded, NoDup, Elems, UniqueExpr;
      NoLoopVars(cont.syms);
      hide SymsOf;
      match s
      case Skip =>
      case Seq(_, _) => MuChiSeq(s, encl);
      case Store(_, _, _) => MuChiStore(s, encl);
      case StoreAt(_, _, _, _) => MuChiStoreAt(s, encl);
      case Call(_, _, _, _) => MuChiCall(s, encl);
      case Retv(_, _, _) =>
        RetvReady(s, cont.syms, cont.nodeSym, cont.mu, cont.chi, cont.phi, scfMap);
        MuChiRetv(s);
      case If(_, _, _, _) => MuChiIf(s, encl);
      case Loop(_, _, _, _, _, _) => MuChiLoop(s, encl);
    }

    method MuChiSeq(s: Stmt, encl: seq<Encl>)
      requires s.Seq?
      requires ValidSyms() && UniqueStmt(s) && Entered(s, cont.syms) && PhiIds(encl) !! StmtIds(s)
      requires Unplanned(StmtIds(s), cont.PlanNow(), scfMap)
      modifies cont`nodeSym, cont`mu, cont`chi, cont`ivSyms, this`scfMap
      ensures MuChiPlanned(s, cont.syms, cont.PlanNow()) && ScfPlanned(s, cont.syms, cont.PlanNow(), scfMap)
      ensures PlanChanged(old(cont.PlanNow()), cont.PlanNow(), StmtIds(s))
      ensures ScfGrown(old(scfMap), scfMap, StmtIds(s), PhiIds(encl), Defs(s, cont.syms, cont.PlanNow()))
      ensures cont.ivSyms == old(cont.ivSyms) + SymsOf(cont.syms, LoopVars(s))
      decreases s, 0
    {
      hide SymsValid, RealPlaces, Relatives, Related, PhiIds, Unplanned, PlanChanged, PlanSame, ScfGrown, ScfAdded,
           Entered, NoDup, Elems, UniqueStmt, DefPlanned, NodeSymIs, PlanOf, SymsOf;
      ghost var P0, scf0 := cont.PlanNow(), scfMap;
      SeqParts(s, cont.syms, P0, scf0);
      MuChiStmt(s.first, encl);
      ghost var P1, scf1 := cont.PlanNow(), scfMap;
      ghost var a, b := StmtIds(s.first), StmtIds(s.second);
      UnplannedFrame(b, P0, P1, scf0, scf1, a, a, PhiIds(encl), Defs(s.first, cont.syms, P1));
      MuChiStmt(s.second, encl);
      ghost var P2 := cont.PlanNow();
      PlanDisjoint(P1, P2, b, a);
      MuChiFrame(s.first, cont.syms, P1, P2);
      KeptInside(scf1, scfMap, b, PhiIds(encl), Defs(s.second, cont.syms, P2), a);
      ScfFrame(s.first, cont.syms, P1, P2, scf1, scfMap);
      PlanTrans(P0, P1, P2, a, b);
      ScfGrownTrans(scf0, scf1, scfMap, a, b, PhiIds(encl),
                    Defs(s.first, cont.syms, P2), Defs(s.second, cont.syms, P2));
      SymsOfBoth(cont.syms, LoopVars(s.first), LoopVars(s.second));
    }

    method MuChiStore(s: Stmt, encl: seq<Encl>)
      requires s.Store?
      requires ValidSyms() && UniqueStmt(s) && Entered(s, cont.syms) && PhiIds(encl) !! StmtIds(s)
      requires Unplanned(StmtIds(s), cont.PlanNow(), scfMap)
      modifies cont`nodeSym, cont`mu, cont`chi, cont`ivSyms, this`scfMap
      ensures MuChiPlanned(s, cont.syms, cont.PlanNow()) && ScfPlanned(s, cont.syms, cont.PlanNow(), scfMap)
      ensures PlanChanged(old(cont.PlanNow()), cont.PlanNow(), StmtIds(s))
      ensures ScfGrown(old(scfMap), scfMap, StmtIds(s), PhiIds(encl), Defs(s, cont.syms, cont.PlanNow()))
      ensures cont.ivSyms == old(cont.ivSyms) + SymsOf(cont.syms, LoopVars(s))
    {
      NoLoopVars(cont.syms);
      hide SymsValid, RealPlaces, Relatives, Related, PhiIds, Unplanned, PlanChanged, PlanSame, ScfGrown, ScfAdded,
           Entered, NoDup, Elems, UniqueStmt, DefPlanned, NodeSymIs, PlanOf, UniqueExpr, RootPlanned, SymOf, SymsOf;
      ghost var P0 := cont.PlanNow();
      DefReady(s, cont.syms, cont.nodeSym, cont.mu, cont.chi, cont.phi, scfMap);
      PhiIdsAppend(encl, Encl(s.id, false));
      assert PhiIds(encl + [Encl(s.id, false)]) == PhiIds(encl);
      MuChiExpr(s.rhs);
      ghost var P1 := cont.PlanNow();
      HandleDirectDef(s.p, s.id, encl + [Encl(s.id, false)]);
      ghost var P2 := cont.PlanNow();
      PlanDisjoint(P1, P2, {s.id}, ExprIds(s.rhs));
      ExprFrame(s.rhs, cont.syms, P1, P2);
      PlanTrans(P0, P1, P2, ExprIds(s.rhs), {s.id});
      PlanWiden(P0, P2, ExprIds(s.rhs) + {s.id}, StmtIds(s));
      AddedGrown(old(scfMap), scfMap, StmtIds(s), PhiIds(encl), Defs(s, cont.syms, P2));
    }

    method MuChiStoreAt(s: Stmt, encl: seq<Encl>)
      requires s.StoreAt?
      requires ValidSyms() && UniqueStmt(s) && Entered(s, cont.syms) && PhiIds(encl) !! StmtIds(s)
      requires Unplanned(StmtIds(s), cont.PlanNow(), scfMap)
      modifies cont`nodeSym, cont`mu, cont`chi, cont`ivSyms, this`scfMap
      ensures MuChiPlanned(s, cont.syms, cont.PlanNow()) && ScfPlanned(s, cont.syms, cont.PlanNow(), scfMap)
      ensures PlanChanged(old(cont.PlanNow()), cont.PlanNow(), StmtIds(s))
      ensures ScfGrown(old(scfMap), scfMap, StmtIds(s), PhiIds(encl), Defs(s, cont.syms, cont.PlanNow()))
      ensures cont.ivSyms == old(cont.ivSyms) + SymsOf(cont.syms, LoopVars(s))
    {
      NoLoopVars(cont.syms);
      hide SymsValid, RealPlaces, Relatives, Related, PhiIds, Unplanned, PlanChanged, PlanSame, ScfGrown, ScfAdded,
           Entered, NoDup, Elems, UniqueStmt, DefPlanned, NodeSymIs, PlanOf, UniqueExpr, RootPlanned, SymOf, SymsOf;
      hide MuChiPlanned, ScfPlanned, ExprPlanned, Defs, LoopVars;
      ghost var P0 := cont.PlanNow();
      DefReady(s, cont.syms, cont.nodeSym, cont.mu, cont.chi, cont.phi, scfMap);
      PhiIdsAppend(encl, Encl(s.id, false));
      assert PhiIds(encl + [Encl(s.id, false)]) == PhiIds(encl);
      MuChiExpr(s.rhs);
      ghost var P1 := cont.PlanNow();
      MuChiExpr(s.sub);
      ghost var P2 := cont.PlanNow();
      HandleDirectDef(Whole(s.v), s.id, encl + [Encl(s.id, false)]);
      ghost var P3 := cont.PlanNow();
      StoreAtPlanned(s, cont.syms, P0, P1, P2, P3, old(scfMap), scfMap, PhiIds(encl));
    }

    method MuChiCall(s: Stmt, encl: seq<Encl>)
      requires s.Call?
      requires ValidSyms() && UniqueStmt(s) && Entered(s, cont.syms) && PhiIds(encl) !! StmtIds(s)
      requires Unplanned(StmtIds(s), cont.PlanNow(), scfMap)
      modifies cont`nodeSym, cont`mu, cont`chi, cont`ivSyms, this`scfMap
      ensures MuChiPlanned(s, cont.syms, cont.PlanNow()) && ScfPlanned(s, cont.syms, cont.PlanNow(), scfMap)
      ensures PlanChanged(old(cont.PlanNow()), cont.PlanNow(), StmtIds(s))
      ensures ScfGrown(old(scfMap), scfMap, StmtIds(s), PhiIds(encl), Defs(s, cont.syms, cont.PlanNow()))
      ensures cont.ivSyms == old(cont.ivSyms) + SymsOf(cont.syms, LoopVars(s))
    {
      NoLoopVars(cont.syms);
      hide SymsValid, RealPlaces, Relatives, Related, PhiIds, Unplanned, PlanChanged, PlanSame, ScfGrown, ScfAdded,
           Entered, NoDup, Elems, UniqueStmt, DefPlanned, NodeSymIs, PlanOf, UniqueExpr, RootPlanned, SymOf, SymsOf;
      ghost var P0 := cont.PlanNow();
      DefReady(s, cont.syms, cont.nodeSym, cont.mu, cont.chi, cont.phi, scfMap);
      PhiIdsAppend(encl, Encl(s.id, false));
      assert PhiIds(encl + [Encl(s.id, false)]) == PhiIds(encl);
      MuChiExpr(s.args);
      ghost var P1 := cont.PlanNow();
      if s.ret.Some? {
        HandleDirectDef(Whole(s.ret.value), s.id, encl + [Encl(s.id, false)]);
        ghost var P2 := cont.PlanNow();
        PlanDisjoint(P1, P2, {s.id}, ExprIds(s.args));
        ExprFrame(s.args, cont.syms, P1, P2);
        PlanTrans(P0, P1, P2, ExprIds(s.args), {s.id});
        PlanWiden(P0, P2, ExprIds(s.args) + {s.id}, StmtIds(s));
        AddedGrown(old(scfMap), scfMap, StmtIds(s), PhiIds(encl), Defs(s, cont.syms, P2));
      } else {
        PlanWiden(P0, P1, ExprIds(s.args), StmtIds(s));
        NoneGrown(scfMap, StmtIds(s), PhiIds(encl));
      }
    }

    method MuChiIf(s: Stmt, encl: seq<Encl>)
      requires s.If?
      requires ValidSyms() && UniqueStmt(s) && Entered(s, cont.syms) && PhiIds(encl) !! StmtIds(s)
      requires Unplanned(StmtIds(s), cont.PlanNow(), scfMap)
      modifies cont`nodeSym, cont`mu, cont`chi, cont`ivSyms, this`scfMap
      ensures MuChiPlanned(s, cont.syms, cont.PlanNow()) && ScfPlanned(s, cont.syms, cont.PlanNow(), scfMap)
      ensures PlanChanged(old(cont.PlanNow()), cont.PlanNow(), StmtIds(s))
      ensures ScfGrown(old(scfMap), scfMap, StmtIds(s), PhiIds(encl), Defs(s, cont.syms, cont.PlanNow()))
      ensures cont.ivSyms == old(cont.ivSyms) + SymsOf(cont.syms, LoopVars(s))
      decreases s, 0
    {
      hide SymsValid, RealPlaces, Relatives, Related, PhiIds, Unplanned, PlanChanged, PlanSame, ScfGrown, ScfAdded,
           Entered, NoDup, Elems, UniqueStmt, DefPlanned, NodeSymIs, PlanOf, UniqueExpr, RootPlanned, SymOf, SymsOf;
      var encl' := encl + [Encl(s.id, true)];
      ghost var P0, scf0, out, out' := cont.PlanNow(), scfMap, PhiIds(encl), PhiIds(encl');
      ghost var c, a, b := ExprIds(s.cond), StmtIds(s.thn), StmtIds(s.els);
      PhiIdsAppend(encl, Encl(s.id, true));
      IfReady(s, cont.syms, P0, scf0);
      MuChiExpr(s.cond);
      ghost var P1 := cont.PlanNow();
      NoneGrown(scf0, {}, out');
      UnplannedFrame(a, P0, P1, scf0, scf0, c, {}, out', {});
      UnplannedFrame(b, P0, P1, scf0, scf0, c, {}, out', {});
      MuChiStmt(s.thn, encl');
      ghost var P2, scf2 := cont.PlanNow(), scfMap;
      UnplannedFrame(b, P1, P2, scf0, scf2, a, a, out', Defs(s.thn, cont.syms, P2));
      MuChiStmt(s.els, encl');
      ghost var P3, scf3 := cont.PlanNow(), scfMap;
      IfPlanned(s, cont.syms, P0, P1, P2, P3, scf0, scf2, scf3, out, out');
      SymsOfBoth(cont.syms, LoopVars(s.thn), LoopVars(s.els));
    }

    method MuChiLoopExprs(s: Stmt)
      requires s.Loop? && ValidSyms() && ExprIds(s.init) !! ExprIds(s.cmp) !! ExprIds(s.step)
      requires UniqueExpr(s.init) && UniqueExpr(s.cmp) && UniqueExpr(s.step)
      requires ExprPlaces(s.init) + ExprPlaces(s.cmp) + ExprPlaces(s.step) <= RealPlaces(cont.syms)
      modifies cont`nodeSym
      ensures ExprPlanned(s.init, cont.syms, cont.PlanNow()) && ExprPlanned(s.cmp, cont.syms, cont.PlanNow())
      ensures ExprPlanned(s.step, cont.syms, cont.PlanNow())
      ensures PlanChanged(old(cont.PlanNow()), cont.PlanNow(), ExprIds(s.init) + (ExprIds(s.cmp) + ExprIds(s.step)))
    {
      hide SymsValid, RealPlaces, PlanChanged, PlanSame, UniqueExpr;
      ghost var P0, i, c, st := cont.PlanNow(), ExprIds(s.init), ExprIds(s.cmp), ExprIds(s.step);
      MuChiExpr(s.init);
      ghost var P1 := cont.PlanNow();
      MuChiExpr(s.cmp);
      ghost var P2 := cont.PlanNow();
      MuChiExpr(s.step);
      ghost var P3 := cont.PlanNow();
      PlanTrans(P1, P2, P3, c, st);
      PlanTrans(P0, P1, P3, i, c + st);
      PlanDisjoint(P1, P3, c + st, i);
      PlanDisjoint(P2, P3, st, c);
      ExprFrame(s.init, cont.syms, P1, P3);
      ExprFrame(s.cmp, cont.syms, P2, P3);
    }

    method MuChiLoop(s: Stmt, encl: seq<Encl>)
      requires s.Loop?
      requires ValidSyms() && UniqueStmt(s) && Entered(s, cont.syms) && PhiIds(encl) !! StmtIds(s)
      requires Unplanned(StmtIds(s), cont.PlanNow(), scfMap)
      modifies cont`nodeSym, cont`mu, cont`chi, cont`ivSyms, this`scfMap
      ensures MuChiPlanned(s, cont.syms, cont.PlanNow()) && ScfPlanned(s, cont.syms, cont.PlanNow(), scfMap)
      ensures PlanChanged(old(cont.PlanNow()), cont.PlanNow(), StmtIds(s))
      ensures ScfGrown(old(scfMap), scfMap, StmtIds(s), PhiIds(encl), Defs(s, cont.syms, cont.PlanNow()))
      ensures cont.ivSyms == old(cont.ivSyms) + SymsOf(cont.syms, LoopVars(s))
      decreases s, 0
    {
      hide SymsValid, RealPlaces, Relatives, Related, PhiIds, Unplanned, PlanChanged, PlanSame, ScfGrown, ScfAdded,
           Entered, NoDup, Elems, UniqueStmt, DefPlanned, NodeSymIs, PlanOf, UniqueExpr, RootPlanned, SymOf, SymsOf;
      var encl' := encl + [Encl(s.id, true)];
      ghost var P0, scf0, out, out' := cont.PlanNow(), scfMap, PhiIds(encl), PhiIds(encl');
      ghost var b, exprs := StmtIds(s.body), ExprIds(s.init) + (ExprIds(s.cmp) + ExprIds(s.step));
      PhiIdsAppend(encl, Encl(s.id, true));
      LoopReady(s, cont.syms, P0, scf0);
      MuChiLoopExprs(s);
      ghost var P3 := cont.PlanNow();
      NoneGrown(scf0, {}, out');
      UnplannedFrame(b, P0, P3, scf0, scf0, exprs, {}, out', {});
      MuChiStmt(s.body, encl');
      ghost var P4, scf4 := cont.PlanNow(), scfMap;
      HandleDoLoopIv(s, encl');
      LoopPlanned(s, cont.syms, symMap, P3, P4, cont.PlanNow());
      PlanTrans(P3, P4, cont.PlanNow(), b, {s.init.id, s.step.id});
      PlanTrans(P0, P3, cont.PlanNow(), exprs, b + {s.init.id, s.step.id});
      PlanWiden(P0, cont.PlanNow(), exprs + (b + {s.init.id, s.step.id}), StmtIds(s));
      LoopScf(s, cont.syms, P4, cont.PlanNow(), scf0, scf4, scfMap, out, out');
      SymsOfBoth(cont.syms, {s.iv}, LoopVars(s.body));
    }

    /** Formals get their symbols and, on the entry node, chis for everything they are made of. */
    method MuChiFormals(f: Func, encl: seq<Encl>)
      requires ValidSyms() && WellFormed(f) && FormalWholes(f.formals) <= symMap.Keys && PhiIds(encl) == {}
      requires cont.chi == map[] && scfMap == map[]
      modifies cont`nodeSym, cont`chi, this`scfMap
      ensures EntrySoFar(f, cont.syms, cont.nodeSym, ListAt(cont.chi, f.id), |f.formals|)
      ensures forall k :: k != f.id ==> ListAt(cont.chi, k) == []
      ensures ScfAdded(map[], scfMap, {}, {})
    {
      hide SymsValid, Relatives, Related, ScfAdded, PlanChanged, Elems, NoDup, RealPlaces, PlanOf, EntrySoFar,
           WellFormed, ChiSyms;
      ScfAddedNone(scfMap, {});
      EntryNone(f, cont.syms, cont.nodeSym, cont.mu, cont.chi, cont.phi);
      var i := 0;
      while i < |f.formals|
        invariant 0 <= i <= |f.formals|
        invariant EntrySoFar(f, cont.syms, cont.nodeSym, ListAt(cont.chi, f.id), i)
        invariant forall k :: k != f.id ==> ListAt(cont.chi, k) == []
        invariant ScfAdded(map[], scfMap, {}, {})
      {
        ghost var scf, nodeSym, list := scfMap, cont.nodeSym, ListAt(cont.chi, f.id);
        var p := Whole(f.formals[i].v);
        assert p in FormalWholes(f.formals);
        HandleVarUse(p, f.formals[i].id);
        ghost var added := HandleVarDef(p, f.id, encl, true);
        SymOfPlace(cont.syms, symMap, p);
        EntryStep(f, cont.syms, symMap, nodeSym, list, ListAt(cont.chi, f.id), i, added);
        assert Elems(added) + {} == Elems(added);
        ScfNoOne(scf, scfMap, Elems(added));
        i := i + 1;
      }
    }

    method MuChiFunc(f: Func)
      requires ValidSyms() && WellFormed(f) && Entered(f.body, cont.syms)
      requires FormalWholes(f.formals) <= symMap.Keys
      requires cont.nodeSym == map[] && cont.mu == map[] && cont.chi == map[] && scfMap == map[]
      modifies cont`nodeSym, cont`mu, cont`chi, cont`ivSyms, this`scfMap
      ensures EntryPlanned(f, cont.syms, cont.PlanNow())
      ensures MuChiPlanned(f.body, cont.syms, cont.PlanNow())
      ensures ScfPlanned(f.body, cont.syms, cont.PlanNow(), scfMap)
      ensures cont.ivSyms == old(cont.ivSyms) + SymsOf(cont.syms, LoopVars(f.body))
    {
      hide SymsValid, Relatives, Related, ScfAdded, ScfGrown, Entered, PlanChanged, PlanSame, Unplanned, ScfPlanned,
           MuChiPlanned, Elems, NoDup, RealPlaces, PlanOf, EntrySoFar, EntryPlanned, ChiSyms, PhiIds, FormalWholes,
           SymsOf;
      var encl := [Encl(f.id, false)];
      NoPhiIds(f.id);
      MuChiFormals(f, encl);
      ghost var nodeSym, chi, P1 := cont.nodeSym, cont.chi, cont.PlanNow();
      FreshBody(f, nodeSym, cont.mu, chi, cont.phi, scfMap);
      PlanOfLists(nodeSym, cont.mu, chi, cont.phi, f.id);
      PlanOfSyms(nodeSym, cont.mu, chi, cont.phi);
      MuChiStmt(f.body, encl);
      EntryKept(f, cont.syms, nodeSym, chi, P1, cont.PlanNow(), cont.mu, cont.phi);
    }

    // ----- phase 3: phis --------------------------------------------------------

    /** Turns every recorded set of symbols into a list of phis, in no particular order. */
    method InsertPhi()
      requires cont.phi == map[]
      modifies cont`phi
      ensures forall i :: PhisOf(ListAt(cont.phi, i), SetAt(scfMap, i))
    {
      var keys := scfMap.Keys;
      while keys != {}
        invariant keys <= scfMap.Keys
        invariant forall i :: PhisOf(ListAt(cont.phi, i), if i in keys then {} else SetAt(scfMap, i))
        decreases keys
      {
        var scf :| scf in keys;
        var list := NewPhis(scfMap[scf]);
        cont.phi := cont.phi[scf := list];
        keys := keys - {scf};
      }
    }

    method NewPhis(info: set<nat>) returns (list: seq<Phi>)
      ensures PhisOf(list, info)
    {
      list := [];
      var rest := info;
      while rest != {}
        invariant rest <= info && PhisOf(list, info - rest)
        decreases rest
      {
        var sym :| sym in rest;
        var phi := Phi(sym, [None, None], None, None);
        assert PhiSyms([phi] + list) == [sym] + PhiSyms(list);
        assert Elems([sym] + PhiSyms(list)) == {sym} + Elems(PhiSyms(list));
        assert sym !in Elems(PhiSyms(list));
        list := [phi] + list;
        rest := rest - {sym};
        assert info - rest == {sym} + (info - (rest + {sym}));
      }
    }
  }

  /** One blank phi for each symbol of the set. */
  ghost predicate PhisOf(list: seq<Phi>, d: set<nat>) {
    && NoDup(PhiSyms(list)) && Elems(PhiSyms(list)) == d
    && forall k :: 0 <= k < |list| ==> list[k].opnd == [None, None]
  }

  lemma NoLoopVars(syms: seq<Sym>)
    ensures SymsOf(syms, {}) == {}
  {
  }

  /** A whole variable has one symbol. */
  lemma OneSymOf(syms: seq<Sym>, ids: SymIds, v: Var)
    requires SymsValid(syms, ids) && Whole(v) in ids
    ensures SymsOf(syms, {v}) == {ids[Whole(v)]}
  {
    forall i ensures i in SymsOf(syms, {v}) <==> i == ids[Whole(v)] {
      if 0 <= i < |syms| {
        assert SymShape(syms, ids, i);
      }
    }
  }

  lemma NoPhiIds(id: nat)
    ensures PhiIds([Encl(id, false)]) == {}
  {
  }

  lemma ScfNoOne(scf: map<nat, set<nat>>, scf': map<nat, set<nat>>, d: set<nat>)
    requires ScfAdded(map[], scf, {}, {}) && ScfAdded(scf, scf', {}, d)
    ensures ScfAdded(map[], scf', {}, {})
  {
  }

  /** The first `n` formals have their symbols, and the entry chis are theirs. */
  ghost predicate EntrySoFar(f: Func, syms: seq<Sym>, nodeSym: map<nat, nat>, list: seq<Chi>, n: nat) {
    && n <= |f.formals| && FormalsPlanned(f.formals[..n], syms, nodeSym)
    && NoDup(ChiSyms(list)) && Elems(ChiSyms(list)) == FormalSyms(syms, f.formals[..n])
  }

  lemma EntryNone(f: Func, syms: seq<Sym>, nodeSym: map<nat, nat>, mu: map<nat, seq<Mu>>, chi: map<nat, seq<Chi>>,
                  phi: map<nat, seq<Phi>>)
    ensures EntrySoFar(f, syms, nodeSym, [], 0)
  {
  }

  /** The real symbols of a variable: itself, if it really occurs, and its parts. */
  lemma VarSyms(syms: seq<Sym>, ids: SymIds, v: Var, i: nat)
    requires SymsValid(syms, ids) && Whole(v) in ids
    ensures i in Relatives(syms, ids[Whole(v)]) + (if syms[ids[Whole(v)]].realOcc then {ids[Whole(v)]} else {})
            <==> i < |syms| && syms[i].realOcc && syms[i].place.v == v
  {
    if i < |syms| {
      assert SymShape(syms, ids, i);
    }
  }

  lemma EntryStep(f: Func, syms: seq<Sym>, ids: SymIds, nodeSym: map<nat, nat>, list: seq<Chi>, list': seq<Chi>,
                  n: nat, added: seq<nat>)
    requires WellFormed(f) && n < |f.formals| && SymsValid(syms, ids) && Whole(f.formals[n].v) in ids
    requires EntrySoFar(f, syms, nodeSym, list, n)
    requires ChiSyms(list') == added + ChiSyms(list) && NoDup(added)
    requires var r := ids[Whole(f.formals[n].v)];
             Elems(added) == Relatives(syms, r) + (if syms[r].realOcc then {r} else {})
    ensures EntrySoFar(f, syms, nodeSym[f.formals[n].id := ids[Whole(f.formals[n].v)]], list', n + 1)
  {
    var v := f.formals[n].v;
    var fs, fs' := f.formals[..n], f.formals[..n + 1];
    assert fs' == fs + [f.formals[n]];
    forall i: nat ensures i in Elems(added) <==> i < |syms| && syms[i].realOcc && syms[i].place.v == v {
      VarSyms(syms, ids, v, i);
    }
    forall i | i in FormalSyms(syms, fs) ensures i !in Elems(added) {
    }
    forall k, m | 0 <= k < m < |added + ChiSyms(list)|
      ensures (added + ChiSyms(list))[k] != (added + ChiSyms(list))[m]
    {
      if k < |added| <= m {
        assert added[k] in Elems(added);
        assert ChiSyms(list)[m - |added|] in Elems(ChiSyms(list));
      }
    }
    assert Elems(ChiSyms(list')) == Elems(added) + Elems(ChiSyms(list));
    forall i: nat ensures i in FormalSyms(syms, fs') <==> i in FormalSyms(syms, fs) || i in Elems(added) {
      if i in FormalSyms(syms, fs) {
        var g :| g in fs && g.v == syms[i].place.v;
        assert g in fs';
      } else if i in Elems(added) {
        assert f.formals[n] in fs';
      }
    }
  }

  lemma PlanOfSyms(nodeSym: map<nat, nat>, mu: map<nat, seq<Mu>>, chi: map<nat, seq<Chi>>, phi: map<nat, seq<Phi>>)
    ensures PlanOf(nodeSym, mu, chi, phi).nodeSym == nodeSym
  {
  }

  lemma FreshBody(f: Func, nodeSym: map<nat, nat>, mu: map<nat, seq<Mu>>, chi: map<nat, seq<Chi>>,
                  phi: map<nat, seq<Phi>>, scf: map<nat, set<nat>>)
    requires f.id !in StmtIds(f.body) && mu == map[]
    requires (forall k :: k != f.id ==> ListAt(chi, k) == []) && ScfAdded(map[], scf, {}, {})
    ensures Unplanned(StmtIds(f.body), PlanOf(nodeSym, mu, chi, phi), scf)
  {
    forall i | i in StmtIds(f.body)
      ensures var P := PlanOf(nodeSym, mu, chi, phi);
              ListAt(P.mu, i) == [] && ListAt(P.chi, i) == [] && SetAt(scf, i) == {}
    {
      PlanOfLists(nodeSym, mu, chi, phi, i);
    }
  }

  /** Planning the body leaves the entry node and the formals alone. */
  lemma EntryKept(f: Func, syms: seq<Sym>, nodeSym: map<nat, nat>, chi: map<nat, seq<Chi>>, P1: Plan, P2: Plan,
                  mu: map<nat, seq<Mu>>, phi: map<nat, seq<Phi>>)
    requires WellFormed(f) && EntrySoFar(f, syms, nodeSym, ListAt(chi, f.id), |f.formals|)
    requires P1.nodeSym == nodeSym && ListAt(P1.chi, f.id) == ChiSyms(ListAt(chi, f.id))
    requires PlanChanged(P1, P2, StmtIds(f.body))
    ensures EntryPlanned(f, syms, P2)
  {
    assert f.formals[..|f.formals|] == f.formals;
    assert PlanNoteAt(P2, f.id) == PlanNoteAt(P1, f.id);
    forall g | g in f.formals
      ensures g.id in P2.nodeSym && P2.nodeSym[g.id] < |syms| && syms[P2.nodeSym[g.id]].place == Whole(g.v)
    {
      assert g.id in FormalIds(f.formals);
      assert PlanNoteAt(P2, g.id) == PlanNoteAt(P1, g.id);
    }
  }

  function FormalWholes(fs: seq<Formal>): set<Place> {
    set f | f in fs :: Whole(f.v)
  }
}
