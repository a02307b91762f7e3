/** Planning some nodes leaves what was planned for the others. */
module PlanFrames {
  import opened Basics
  import opened Ir
  import opened SsaTables
  import opened Plans

  /** What the mu/chi phase plans for one node. */
  datatype PlanNote = PlanNote(sym: Option<nat>, mu: seq<nat>, chi: seq<nat>)

  function PlanNoteAt(P: Plan, i: nat): PlanNote {
    PlanNote(if i in P.nodeSym then Some(P.nodeSym[i]) else None, ListAt(P.mu, i), ListAt(P.chi, i))
  }

  /** Only nodes in `ids` changed. */
  ghost predicate PlanChanged(P: Plan, P': Plan, ids: set<nat>) {
    forall i :: i !in ids ==> PlanNoteAt(P', i) == PlanNoteAt(P, i)
  }

  ghost predicate PlanSame(P: Plan, P': Plan, ids: set<nat>) {
    forall i :: i in ids ==> PlanNoteAt(P', i) == PlanNoteAt(P, i)
  }

  lemma PlanTrans(P0: Plan, P1: Plan, P2: Plan, a: set<nat>, b: set<nat>)
    requires PlanChanged(P0, P1, a) && PlanChanged(P1, P2, b)
    ensures PlanChanged(P0, P2, a + b)
  {
  }

  lemma PlanDisjoint(P: Plan, P': Plan, changed: set<nat>, ids: set<nat>)
    requires PlanChanged(P, P', changed) && changed !! ids
    ensures PlanSame(P, P', ids)
  {
  }

  lemma NodeSymFrame(id: nat, p: Place, syms: seq<Sym>, P: Plan, P': Plan)
    requires PlanNoteAt(P', id) == PlanNoteAt(P, id) && NodeSymIs(id, p, syms, P)
    ensures NodeSymIs(id, p, syms, P') && SymOf(P', id) == SymOf(P, id)
  {
  }

  lemma {:induction false} ExprFrame(e: Expr, syms: seq<Sym>, P: Plan, P': Plan)
    requires PlanSame(P, P', ExprIds(e)) && ExprPlanned(e, syms, P)
    ensures ExprPlanned(e, syms, P')
  {
    match e
    case Node(_, _, l, r) =>
      ExprFrame(l, syms, P, P');
      ExprFrame(r, syms, P, P');
    case Load(id, p) => NodeSymFrame(id, p, syms, P, P');
    case LoadAt(id, v, sub) =>
      ExprFrame(sub, syms, P, P');
      NodeSymFrame(id, Whole(v), syms, P, P');
    case _ =>
  }

  /** Giving the root of an expression the symbol of the induction variable. */
  lemma RootGiven(e: Expr, iv: Var, syms: seq<Sym>, P: Plan, P': Plan)
    requires UniqueExpr(e) && ExprPlanned(e, syms, P)
    requires PlanSame(P, P', ExprIds(e) - {e.id}) && NodeSymIs(e.id, Whole(iv), syms, P')
    ensures RootPlanned(e, iv, syms, P')
  {
    match e
    case Node(_, _, l, r) =>
      ExprFrame(l, syms, P, P');
      ExprFrame(r, syms, P, P');
    case LoadAt(_, _, sub) => ExprFrame(sub, syms, P, P');
    case _ =>
  }

  lemma RootPlannedFrame(e: Expr, iv: Var, syms: seq<Sym>, P: Plan, P': Plan)
    requires PlanSame(P, P', ExprIds(e)) && RootPlanned(e, iv, syms, P)
    ensures RootPlanned(e, iv, syms, P') && SymOf(P', e.id) == SymOf(P, e.id)
  {
    assert e.id in ExprIds(e);
    NodeSymFrame(e.id, Whole(iv), syms, P, P');
    match e
    case Load(_, _) =>
    case LoadAt(_, _, sub) => ExprFrame(sub, syms, P, P');
    case _ => ExprFrame(e, syms, P, P');
  }

  lemma DefPlannedFrame(id: nat, d: Place, syms: seq<Sym>, P: Plan, P': Plan)
    requires PlanNoteAt(P', id) == PlanNoteAt(P, id) && DefPlanned(id, d, syms, P)
    ensures DefPlanned(id, d, syms, P') && SymOf(P', id) == SymOf(P, id)
  {
    NodeSymFrame(id, d, syms, P, P');
    assert ListAt(P'.chi, id) == ListAt(P.chi, id);
  }

  lemma {:induction false} MuChiFrame(s: Stmt, syms: seq<Sym>, P: Plan, P': Plan)
    requires PlanSame(P, P', StmtIds(s)) && MuChiPlanned(s, syms, P)
    ensures MuChiPlanned(s, syms, P') && Defs(s, syms, P') == Defs(s, syms, P)
    decreases s
  {
    match s
    case Skip =>
    case Seq(a, b) =>
      MuChiFrame(a, syms, P, P');
      MuChiFrame(b, syms, P, P');
    case Store(id, p, rhs) =>
      ExprFrame(rhs, syms, P, P');
      DefPlannedFrame(id, p, syms, P, P');
    case StoreAt(id, v, sub, rhs) =>
      ExprFrame(rhs, syms, P, P');
      ExprFrame(sub, syms, P, P');
      DefPlannedFrame(id, Whole(v), syms, P, P');
    case Call(id, _, args, ret) =>
      ExprFrame(args, syms, P, P');
      if ret.Some? { DefPlannedFrame(id, Whole(ret.value), syms, P, P'); }
    case Retv(id, kid, v) =>
      NodeSymFrame(kid, Whole(v), syms, P, P');
      assert PlanNoteAt(P', id) == PlanNoteAt(P, id);
      assert ListAt(P'.mu, id) == ListAt(P.mu, id);
    case If(_, c, a, b) =>
      ExprFrame(c, syms, P, P');
      MuChiFrame(a, syms, P, P');
      MuChiFrame(b, syms, P, P');
    case Loop(_, iv, i, c, st, b) =>
      RootPlannedFrame(i, iv, syms, P, P');
      RootPlannedFrame(st, iv, syms, P, P');
      ExprFrame(c, syms, P, P');
      MuChiFrame(b, syms, P, P');
  }

  // ----- symbols defined inside if and do_loop --------------------------------

  /** The map holds, for every `if` and `do_loop`, exactly the symbols defined inside it. */
  ghost predicate ScfPlanned(s: Stmt, syms: seq<Sym>, P: Plan, scf: map<nat, set<nat>>) {
    match s
    case Seq(a, b) => ScfPlanned(a, syms, P, scf) && ScfPlanned(b, syms, P, scf)
    case If(id, _, a, b) =>
      SetAt(scf, id) == Defs(s, syms, P) && ScfPlanned(a, syms, P, scf) && ScfPlanned(b, syms, P, scf)
    case Loop(id, _, _, _, _, b) => SetAt(scf, id) == Defs(s, syms, P) && ScfPlanned(b, syms, P, scf)
    case _ => true
  }

  lemma {:induction false} ScfFrame(s: Stmt, syms: seq<Sym>, P: Plan, P': Plan,
                                    scf: map<nat, set<nat>>, scf': map<nat, set<nat>>)
    requires MuChiPlanned(s, syms, P) && PlanSame(P, P', StmtIds(s)) && ScfPlanned(s, syms, P, scf)
    requires forall i :: i in StmtIds(s) ==> SetAt(scf', i) == SetAt(scf, i)
    ensures ScfPlanned(s, syms, P', scf')
    decreases s
  {
    match s
    case Seq(a, b) =>
      ScfFrame(a, syms, P, P', scf, scf');
      ScfFrame(b, syms, P, P', scf, scf');
    case If(_, _, a, b) =>
      MuChiFrame(s, syms, P, P');
      ScfFrame(a, syms, P, P', scf, scf');
      ScfFrame(b, syms, P, P', scf, scf');
    case Loop(_, _, _, _, _, b) =>
      MuChiFrame(s, syms, P, P');
      ScfFrame(b, syms, P, P', scf, scf');
    case _ =>
  }

  /** Once every recorded set has become a list of phis, phis are placed exactly where they belong. */
  lemma {:induction false} PhisFromScf(s: Stmt, syms: seq<Sym>, P: Plan, scf: map<nat, set<nat>>)
    requires ScfPlanned(s, syms, P, scf)
    requires forall i :: NoDup(ListAt(P.phi, i)) && Elems(ListAt(P.phi, i)) == SetAt(scf, i)
    ensures PhisPlanned(s, syms, P)
    decreases s
  {
    match s
    case Seq(a, b) =>
      PhisFromScf(a, syms, P, scf);
      PhisFromScf(b, syms, P, scf);
    case If(_, _, a, b) =>
      PhisFromScf(a, syms, P, scf);
      PhisFromScf(b, syms, P, scf);
    case Loop(_, _, _, _, _, b) => PhisFromScf(b, syms, P, scf);
    case _ =>
  }
}
