/**
  The renaming traversal with its version stacks.  Every method is proved
  against the stack-free renaming of `SsaTables`: it annotates exactly what
  `Renamed` asks for, and apart from pushed versions it leaves the stacks as
  it found them.
 */
module Renaming {
  import opened Basics
  import opened Ir
  import opened SsaTables
  import opened SsaContainers
  import opened Plans
  import opened Frames
  import opened VersionStacks

  /** Every load the traversal visits has a symbol. */
  ghost predicate Visitable(e: Expr, P: Plan, n: nat) {
    match e
    case Leaf(_, _) => true
    case Node(_, _, l, r) => Visitable(l, P, n) && Visitable(r, P, n)
    case Load(id, _) => id in P.nodeSym && P.nodeSym[id] < n
    case LoadAt(id, _, sub) => Visitable(sub, P, n) && id in P.nodeSym && P.nodeSym[id] < n
    case TableAt(_, _, _) => true
  }

  lemma {:induction false} PlannedVisitable(e: Expr, syms: seq<Sym>, P: Plan)
    requires ExprPlanned(e, syms, P)
    ensures Visitable(e, P, |syms|)
  {
    match e
    case Node(_, _, l, r) => PlannedVisitable(l, syms, P); PlannedVisitable(r, syms, P);
    case LoadAt(_, _, sub) => PlannedVisitable(sub, syms, P);
    case _ =>
  }

  lemma RootVisitable(e: Expr, iv: Var, syms: seq<Sym>, P: Plan)
    requires RootPlanned(e, iv, syms, P)
    ensures Visitable(e, P, |syms|)
  {
    match e
    case Load(_, _) =>
    case LoadAt(_, _, sub) => PlannedVisitable(sub, syms, P);
    case _ => PlannedVisitable(e, syms, P);
  }

  /** The list can be walked: its symbols exist and are distinct. */
  ghost predicate Walkable(list: seq<nat>, n: nat) {
    NoDup(list) && forall k :: 0 <= k < |list| ==> list[k] < n
  }

  lemma DefWalkable(id: nat, d: Place, syms: seq<Sym>, P: Plan)
    requires DefPlanned(id, d, syms, P)
    ensures Walkable(ListAt(P.chi, id), |syms|)
  {
    var list := ListAt(P.chi, id);
    forall k | 0 <= k < |list| ensures list[k] < |syms| {
      assert list[k] in Elems(list);
      assert list[k] in Relatives(syms, SymOf(P, id));
    }
  }

  lemma {:induction false} DefsInRange(s: Stmt, syms: seq<Sym>, P: Plan, i: nat)
    requires MuChiPlanned(s, syms, P) && i in Defs(s, syms, P)
    ensures i < |syms|
  {
    match s
    case Seq(a, b) => if i in Defs(a, syms, P) { DefsInRange(a, syms, P, i); } else { DefsInRange(b, syms, P, i); }
    case If(_, _, a, b) => if i in Defs(a, syms, P) { DefsInRange(a, syms, P, i); } else { DefsInRange(b, syms, P, i); }
    case Loop(_, _, init, _, _, b) => if i != SymOf(P, init.id) { DefsInRange(b, syms, P, i); }
    case _ =>
  }

  lemma PhisWalkable(s: Stmt, syms: seq<Sym>, P: Plan)
    requires (s.If? || s.Loop?) && MuChiPlanned(s, syms, P) && PhisPlanned(s, syms, P)
    ensures Walkable(ListAt(P.phi, s.id), |syms|)
  {
    var list := ListAt(P.phi, s.id);
    forall k | 0 <= k < |list| ensures list[k] < |syms| {
      assert list[k] in Elems(list);
      DefsInRange(s, syms, P, list[k]);
    }
  }

  /** Nothing has been renamed on these nodes yet. */
  ghost predicate Blank(V: View, ids: set<nat>) {
    && Unnamed(ids, V)
    && forall i :: i in ids ==> forall k :: 0 <= k < |ListAt(V.phi, i)| ==> ListAt(V.phi, i)[k].opnd == [None, None]
  }

  lemma BlankPart(V: View, ids: set<nat>, part: set<nat>)
    requires Blank(V, ids) && part <= ids
    ensures Blank(V, part)
  {
  }

  lemma BlankFrame(V: View, V': View, changed: set<nat>, ids: set<nat>)
    requires ChangedOnly(V, V', changed) && changed !! ids && Blank(V, ids)
    ensures Blank(V', ids)
  {
    Disjoint(V, V', changed, ids);
    UnnamedFrame(ids, V, V');
    forall i | i in ids ensures ListAt(V'.phi, i) == ListAt(V.phi, i) {
      assert NoteAt(V', i) == NoteAt(V, i);
    }
  }

  /** Operand `k` of every phi of node `id` is the version `top` gives its symbol. */
  ghost predicate OpndSet(id: nat, P: Plan, V: View, k: nat, top: seq<nat>) {
    var list := ListAt(V.phi, id);
    && PhiSyms(list) == ListAt(P.phi, id)
    && forall j :: 0 <= j < |list| ==>
         list[j].sym < |top| && |list[j].opnd| == 2 && k < 2 && list[j].opnd[k] == Some(top[list[j].sym])
  }

  ghost predicate OpndBlank(id: nat, V: View, k: nat) {
    forall j :: 0 <= j < |ListAt(V.phi, id)| ==>
      |ListAt(V.phi, id)[j].opnd| == 2 && k < 2 && ListAt(V.phi, id)[j].opnd[k] == None
  }

  /** Every phi of node `id` defines its version, the first one `next`. */
  ghost predicate ResultsSet(id: nat, P: Plan, V: View, next: nat) {
    var list := ListAt(V.phi, id);
    && PhiSyms(list) == ListAt(P.phi, id)
    && forall j :: 0 <= j < |list| ==>
         && list[j].res == Some(next + j) && list[j].defStmt == Some(id)
         && HasVer(V, next + j, list[j].sym, ByPhi(id, j))
  }

  lemma PhisComplete(id: nat, P: Plan, V: View, left: seq<nat>, right: seq<nat>, next: nat)
    requires OpndSet(id, P, V, 0, left) && OpndSet(id, P, V, 1, right) && ResultsSet(id, P, V, next)
    ensures PhisNamed(id, P, V, left, right, next)
  {
  }

  /** A walk over the list `syms` of node `id`, started at `V0`, `t0`, `at`, has pushed its first `k` symbols. */
  ghost predicate Pushed(id: nat, syms: seq<nat>, V0: View, t0: Stacks, V: View, t: Stacks, at: Point, k: nat) {
    && k <= |syms|
    && Point(TopsOf(t), |V.vers|) == Point(PushAll(syms[..k], at.top, at.next), at.next + k)
    && Grown(t0, t, Elems(syms[..k]))
    && t == PushEach(t0, syms[..k], at.next)
    && ChangedOnly(V0, V, {id})
  }

  lemma FitsLists(P: Plan, V: View, id: nat)
    requires Fits(P, V)
    ensures ChiSyms(ListAt(V.chi, id)) == ListAt(P.chi, id)
    ensures PhiSyms(ListAt(V.phi, id)) == ListAt(P.phi, id)
    ensures MuSyms(ListAt(V.mu, id)) == ListAt(P.mu, id)
  {
    assert FitsAt(P, V, id);
  }

  lemma ChiSymsAt(list: seq<Chi>, k: nat)
    requires k < |list|
    ensures |ChiSyms(list)| == |list| && ChiSyms(list)[k] == list[k].sym
  {
  }

  lemma PhiSymsAt(list: seq<Phi>, k: nat)
    requires k < |list|
    ensures |PhiSyms(list)| == |list| && PhiSyms(list)[k] == list[k].sym
  {
  }

  /** The next symbol of a list of distinct symbols still has its old version. */
  lemma NextOfList(syms: seq<nat>, top: seq<nat>, next: nat, k: nat)
    requires Walkable(syms, |top|) && k < |syms|
    ensures syms[k] < |top| && PushAll(syms[..k], top, next)[syms[k]] == top[syms[k]]
  {
    PushAllOut(syms[..k], top, next, syms[k]);
  }

  lemma ChangedNone(V: View, id: nat)
    ensures ChangedOnly(V, V, {id})
  {
  }

  lemma PushNone(id: nat, syms: seq<nat>, V0: View, t0: Stacks)
    ensures Pushed(id, syms, V0, t0, V0, t0, Point(TopsOf(t0), |V0.vers|), 0)
  {
    assert syms[..0] == [];
  }

  lemma PushStep(id: nat, syms: seq<nat>, V0: View, t0: Stacks, V: View, t: Stacks, V': View, t': Stacks,
                 at: Point, k: nat)
    requires Pushed(id, syms, V0, t0, V, t, at, k) && k < |syms|
    requires Point(TopsOf(t'), |V'.vers|) == Point(Set(TopsOf(t), syms[k], at.next + k), at.next + k + 1)
    requires Grown(t, t', {syms[k]}) && ChangedOnly(V, V', {id}) && t' == PushOne(t, syms[k], at.next + k)
    ensures Pushed(id, syms, V0, t0, V', t', at, k + 1)
  {
    assert syms[..k + 1][..k] == syms[..k];
    assert syms[..k + 1] == syms[..k] + [syms[k]];
    assert Elems(syms[..k + 1]) == Elems(syms[..k]) + {syms[k]};
    GrownTrans(t0, t, t', Elems(syms[..k]), {syms[k]});
    ChangedTrans(V0, V, V', {id}, {id});
  }

  /** The first `k` chis are renamed; the symbols of the list are `syms`. */
  ghost predicate ChisSoFar(id: nat, list: seq<Chi>, syms: seq<nat>, V: View, at: Point, k: nat) {
    && ChiSyms(list) == syms && k <= |syms|
    && forall j :: 0 <= j < k ==>
         && list[j].sym < |at.top| && list[j].opnd == Some(at.top[list[j].sym])
         && list[j].res == Some(at.next + j) && list[j].defStmt == Some(id)
         && HasVer(V, at.next + j, list[j].sym, ByChi(id, j))
  }

  lemma ChiStep(id: nat, list: seq<Chi>, list': seq<Chi>, syms: seq<nat>, V: View, V': View, at: Point, k: nat)
    requires ChisSoFar(id, list, syms, V, at, k) && k < |list| && V.vers <= V'.vers
    requires list[k].sym < |at.top|
    requires list' ==
               list[k := list[k].(opnd := Some(at.top[list[k].sym]), res := Some(at.next + k), defStmt := Some(id))]
    requires HasVer(V', at.next + k, list[k].sym, ByChi(id, k))
    ensures ChisSoFar(id, list', syms, V', at, k + 1)
  {
    assert ChiSyms(list') == ChiSyms(list);
  }

  ghost predicate PhisSoFar(id: nat, first: seq<Phi>, list: seq<Phi>, syms: seq<nat>, V: View, next: nat, k: nat) {
    && PhiSyms(list) == syms && k <= |syms| && SameOpnds(first, list)
    && forall j :: 0 <= j < k ==>
         && list[j].res == Some(next + j) && list[j].defStmt == Some(id)
         && HasVer(V, next + j, list[j].sym, ByPhi(id, j))
  }

  lemma PhiStep(id: nat, first: seq<Phi>, list: seq<Phi>, list': seq<Phi>, syms: seq<nat>, V: View, V': View,
                next: nat, k: nat)
    requires PhisSoFar(id, first, list, syms, V, next, k) && k < |list| && V.vers <= V'.vers
    requires list' == list[k := list[k].(res := Some(next + k), defStmt := Some(id))]
    requires HasVer(V', next + k, list[k].sym, ByPhi(id, k))
    ensures PhisSoFar(id, first, list', syms, V', next, k + 1)
  {
    assert PhiSyms(list') == PhiSyms(list);
  }

  /** `list'` is `list` with operand `k` of the first `n` phis set to the versions of `top`. */
  ghost predicate WithOpnd(list: seq<Phi>, list': seq<Phi>, k: nat, top: seq<nat>, n: nat) {
    && OneOpndSet(list, list', k) && n <= |list|
    && (forall j :: 0 <= j < |list| ==>
          && list[j].sym < |top| && |list[j].opnd| == 2 && k < 2
          && list[j].opnd[k] == None
          && list'[j].opnd[k] == if j < n then Some(top[list[j].sym]) else None)
  }

  lemma OpndNone(id: nat, P: Plan, V: View, k: nat, top: seq<nat>)
    requires Fits(P, V) && Walkable(ListAt(P.phi, id), |top|) && OpndBlank(id, V, k)
    ensures WithOpnd(ListAt(V.phi, id), ListAt(V.phi, id), k, top, 0)
  {
    FitsLists(P, V, id);
    var list := ListAt(V.phi, id);
    forall j | 0 <= j < |list| ensures list[j].sym < |top| {
      assert PhiSyms(list)[j] == list[j].sym;
    }
  }

  lemma OpndNext(list: seq<Phi>, list': seq<Phi>, k: nat, top: seq<nat>, n: nat)
    requires WithOpnd(list, list', k, top, n) && n < |list|
    ensures |list'| == |list| && list'[n].sym == list[n].sym < |top|
    ensures |list'[n].opnd| == 2 && k < 2 && list'[n].opnd[k] == None
  {
  }

  lemma OpndStep(list: seq<Phi>, list': seq<Phi>, list'': seq<Phi>, k: nat, top: seq<nat>, n: nat)
    requires WithOpnd(list, list', k, top, n) && n < |list|
    requires k < |list'[n].opnd| && list'[n].sym < |top|
    requires list'' == list'[n := list'[n].(opnd := list'[n].opnd[k := Some(top[list'[n].sym])])]
    ensures WithOpnd(list, list'', k, top, n + 1)
  {
  }

  lemma OpndDone(id: nat, P: Plan, V: View, list: seq<Phi>, k: nat, top: seq<nat>)
    requires Fits(P, V) && WithOpnd(list, ListAt(V.phi, id), k, top, |list|)
    ensures OpndSet(id, P, V, k, top) && OneOpndSet(list, ListAt(V.phi, id), k)
  {
    FitsLists(P, V, id);
  }

  /** Replacing the phi list of a node by one with the same symbols keeps the plan. */
  lemma PhiListSet(id: nat, P: Plan, V: View, list: seq<Phi>)
    requires Fits(P, V) && PhiSyms(list) == PhiSyms(ListAt(V.phi, id))
    ensures Fits(P, V.(phi := V.phi[id := list])) && ChangedOnly(V, V.(phi := V.phi[id := list]), {id})
  {
    var V' := V.(phi := V.phi[id := list]);
    forall i ensures FitsAt(P, V', i) {
      assert FitsAt(P, V, i);
    }
  }

  /** The lists differ in operand `k` only. */
  ghost predicate OneOpndSet(list: seq<Phi>, list': seq<Phi>, k: nat) {
    && |list| == |list'|
    && forall j :: 0 <= j < |list| ==>
         && |list'[j].opnd| == |list[j].opnd|
         && list'[j] == list[j].(opnd := list'[j].opnd)
         && forall o :: 0 <= o < |list[j].opnd| && o != k ==> list'[j].opnd[o] == list[j].opnd[o]
  }

  /** Symbols and operands are those of the old list. */
  ghost predicate SameOpnds(list: seq<Phi>, list': seq<Phi>) {
    && |list| == |list'|
    && forall j :: 0 <= j < |list| ==> list'[j].sym == list[j].sym && list'[j].opnd == list[j].opnd
  }

  // ----- putting statements together -----------------------------------------

  lemma OpndKept(id: nat, P: Plan, V: View, V': View, k: nat, other: nat, top: seq<nat>)
    requires OpndSet(id, P, V, k, top) && Fits(P, V') && k < 2 && k != other
    requires OneOpndSet(ListAt(V.phi, id), ListAt(V'.phi, id), other)
    ensures OpndSet(id, P, V', k, top)
  {
    FitsLists(P, V', id);
    var list, list' := ListAt(V.phi, id), ListAt(V'.phi, id);
    forall j | 0 <= j < |list| ensures list'[j].sym == list[j].sym && list'[j].opnd[k] == list[j].opnd[k] {
      assert list'[j] == list[j].(opnd := list'[j].opnd);
    }
  }

  lemma OpndSame(id: nat, P: Plan, V: View, V': View, k: nat, top: seq<nat>)
    requires OpndSet(id, P, V, k, top) && Fits(P, V')
    requires SameOpnds(ListAt(V.phi, id), ListAt(V'.phi, id))
    ensures OpndSet(id, P, V', k, top)
  {
    FitsLists(P, V', id);
  }

  lemma OpndFrame(id: nat, P: Plan, V: View, V': View, k: nat, top: seq<nat>)
    requires OpndSet(id, P, V, k, top) && NoteAt(V', id) == NoteAt(V, id)
    ensures OpndSet(id, P, V', k, top)
  {
    assert ListAt(V'.phi, id) == ListAt(V.phi, id);
  }

  lemma ResultsKept(id: nat, P: Plan, V: View, V': View, k: nat, next: nat)
    requires ResultsSet(id, P, V, next) && Fits(P, V') && V.vers <= V'.vers
    requires OneOpndSet(ListAt(V.phi, id), ListAt(V'.phi, id), k)
    ensures ResultsSet(id, P, V', next)
  {
    FitsLists(P, V', id);
    var list, list' := ListAt(V.phi, id), ListAt(V'.phi, id);
    forall j | 0 <= j < |list|
      ensures list'[j].sym == list[j].sym && list'[j].res == list[j].res && list'[j].defStmt == list[j].defStmt
    {
      assert list'[j] == list[j].(opnd := list'[j].opnd);
    }
  }

  lemma ResultsFrame(id: nat, P: Plan, V: View, V': View, next: nat)
    requires ResultsSet(id, P, V, next) && V.vers <= V'.vers && NoteAt(V', id) == NoteAt(V, id)
    ensures ResultsSet(id, P, V', next)
  {
    assert ListAt(V'.phi, id) == ListAt(V.phi, id);
  }

  /** The other operand is still blank. */
  lemma BlankKept(id: nat, V: View, V': View)
    requires OpndBlank(id, V, 1) && OneOpndSet(ListAt(V.phi, id), ListAt(V'.phi, id), 0)
    ensures OpndBlank(id, V', 1)
  {
    var list, list' := ListAt(V.phi, id), ListAt(V'.phi, id);
    forall j | 0 <= j < |list'| ensures |list'[j].opnd| == 2 && list'[j].opnd[1] == None {
      assert |list[j].opnd| == 2 && list[j].opnd[1] == None;
      assert list'[j].opnd[1] == list[j].opnd[1];
    }
  }

  lemma BlankSame(id: nat, V: View, V': View, k: nat)
    requires OpndBlank(id, V, k) && SameOpnds(ListAt(V.phi, id), ListAt(V'.phi, id))
    ensures OpndBlank(id, V', k)
  {
    var list, list' := ListAt(V.phi, id), ListAt(V'.phi, id);
    forall j | 0 <= j < |list'| ensures |list'[j].opnd| == 2 && k < 2 && list'[j].opnd[k] == None {
      assert list'[j].opnd == list[j].opnd;
    }
  }

  lemma BlankOpnd(id: nat, V: View, ids: set<nat>, k: nat)
    requires Blank(V, ids) && id in ids && k < 2
    ensures OpndBlank(id, V, k)
  {
  }

  /** What an `if` needs of its parts before the traversal starts. */
  lemma IfParts(s: Stmt, syms: seq<Sym>, P: Plan, V: View)
    requires s.If? && Planned(s, syms, P) && UniqueStmt(s) && Blank(V, StmtIds(s))
    ensures UniqueExpr(s.cond) && Visitable(s.cond, P, |syms|) && Unnamed(ExprIds(s.cond), V)
    ensures UniqueStmt(s.thn) && Planned(s.thn, syms, P) && Blank(V, StmtIds(s.thn))
    ensures UniqueStmt(s.els) && Planned(s.els, syms, P) && Blank(V, StmtIds(s.els))
    ensures Walkable(ListAt(P.phi, s.id), |syms|) && Blank(V, {s.id})
    ensures ExprIds(s.cond) !! StmtIds(s.thn) !! StmtIds(s.els) !! {s.id}
    ensures StmtIds(s) == ExprIds(s.cond) + StmtIds(s.thn) + StmtIds(s.els) + {s.id}
    ensures Elems(ListAt(P.phi, s.id)) == Defs(s.thn, syms, P) + Defs(s.els, syms, P)
    ensures Elems(ListAt(P.phi, s.id)) == Defs(s, syms, P)
  {
    PlannedVisitable(s.cond, syms, P);
    PhisWalkable(s, syms, P);
  }

  lemma LoopParts(s: Stmt, syms: seq<Sym>, P: Plan, V: View)
    requires s.Loop? && Planned(s, syms, P) && UniqueStmt(s) && Blank(V, StmtIds(s))
    ensures UniqueExpr(s.init) && Visitable(s.init, P, |syms|) && Unnamed(ExprIds(s.init), V)
    ensures UniqueExpr(s.cmp) && Visitable(s.cmp, P, |syms|) && Unnamed(ExprIds(s.cmp), V)
    ensures UniqueExpr(s.step) && Visitable(s.step, P, |syms|) && Unnamed(ExprIds(s.step), V)
    ensures UniqueStmt(s.body) && Planned(s.body, syms, P) && Blank(V, StmtIds(s.body))
    ensures Walkable(ListAt(P.phi, s.id), |syms|) && Blank(V, {s.id})
    ensures ExprIds(s.init) !! ExprIds(s.cmp) !! ExprIds(s.step) !! StmtIds(s.body) !! {s.id}
    ensures StmtIds(s) == ExprIds(s.init) + ExprIds(s.cmp) + ExprIds(s.step) + StmtIds(s.body) + {s.id}
    ensures s.init.id in ExprIds(s.init) && s.step.id in ExprIds(s.step)
    ensures s.init.id in P.nodeSym && P.nodeSym[s.init.id] < |syms|
    ensures s.step.id in P.nodeSym && P.nodeSym[s.step.id] == P.nodeSym[s.init.id]
    ensures Elems(ListAt(P.phi, s.id)) == {SymOf(P, s.init.id)} + Defs(s.body, syms, P)
    ensures Elems(ListAt(P.phi, s.id)) == Defs(s, syms, P)
  {
    RootVisitable(s.init, s.iv, syms, P);
    RootVisitable(s.step, s.iv, syms, P);
    PlannedVisitable(s.cmp, syms, P);
    PhisWalkable(s, syms, P);
    assert syms[P.nodeSym[s.step.id]].place == syms[P.nodeSym[s.init.id]].place;
  }

  lemma SameList(V: View, V': View, changed: set<nat>, id: nat)
    requires ChangedOnly(V, V', changed) && id !in changed
    ensures NoteAt(V', id) == NoteAt(V, id) && ListAt(V'.phi, id) == ListAt(V.phi, id) && V.vers <= V'.vers
  {
  }

  lemma BlankListed(id: nat, V: View, V': View, k: nat)
    requires OpndBlank(id, V, k) && ListAt(V'.phi, id) == ListAt(V.phi, id)
    ensures OpndBlank(id, V', k)
  {
  }

  /** Everything an `if` established on the way still holds at its end. */
  lemma IfFrames(s: Stmt, P: Plan, V0: View, V1: View, V3: View, V5: View, V6: View, at: Point, p: Point)
    requires s.If? && ExprIds(s.cond) !! StmtIds(s.thn) !! StmtIds(s.els) !! {s.id}
    requires StmtIds(s) == ExprIds(s.cond) + StmtIds(s.thn) + StmtIds(s.els) + {s.id}
    requires ChangedOnly(V0, V1, ExprIds(s.cond)) && ChangedOnly(V1, V3, StmtIds(s.thn) + {s.id})
    requires ChangedOnly(V3, V5, StmtIds(s.els) + {s.id}) && ChangedOnly(V5, V6, {s.id})
    requires UsesNamed(s.cond, P, V1, at.top) && Renamed(s.thn, P, V3, at) && Renamed(s.els, P, V5, p)
    ensures ChangedOnly(V0, V6, StmtIds(s))
    ensures UsesNamed(s.cond, P, V6, at.top) && Renamed(s.thn, P, V6, at) && Renamed(s.els, P, V6, p)
  {
    var ct, cn, ce, ci := ExprIds(s.cond), StmtIds(s.thn) + {s.id}, StmtIds(s.els) + {s.id}, {s.id};
    ChangedTrans(V3, V5, V6, ce, ci);
    ChangedTrans(V1, V3, V6, cn, ce + ci);
    ChangedTrans(V0, V1, V6, ct, cn + (ce + ci));
    assert ct + (cn + (ce + ci)) == StmtIds(s);
    Disjoint(V1, V6, cn + (ce + ci), ct);
    Disjoint(V3, V6, ce + ci, StmtIds(s.thn));
    Disjoint(V5, V6, ci, StmtIds(s.els));
    UsesFrame(s.cond, P, V1, V6, at.top);
    RenamedFrame(s.thn, P, V3, V6, at);
    RenamedFrame(s.els, P, V5, V6, p);
  }

  /** Everything a loop established on the way still holds at its end. */
  lemma LoopFrames(s: Stmt, P: Plan, V0: View, V4: View, V5: View, V9: View, at: Point)
    requires s.Loop? && ExprIds(s.init) !! ExprIds(s.cmp) !! ExprIds(s.step) !! StmtIds(s.body) !! {s.id}
    requires StmtIds(s) == ExprIds(s.init) + ExprIds(s.cmp) + ExprIds(s.step) + StmtIds(s.body) + {s.id}
    requires s.init.id in ExprIds(s.init)
    requires ChangedOnly(V0, V4, ExprIds(s.init) + {s.id}) && ChangedOnly(V4, V5, ExprIds(s.cmp))
    requires ChangedOnly(V5, V9, StmtIds(s.body) + (ExprIds(s.step) + {s.id}))
    requires RootUsesNamed(s.init, P, V4, at.top) && DefNamed(s.init.id, P, V4, at.next, s.init.id)
    requires UsesNamed(s.cmp, P, V5, AtHeader(s, P, at).top)
    ensures ChangedOnly(V0, V9, StmtIds(s))
    ensures RootUsesNamed(s.init, P, V9, at.top) && DefNamed(s.init.id, P, V9, at.next, s.init.id)
    ensures UsesNamed(s.cmp, P, V9, AtHeader(s, P, at).top)
    ensures NoteAt(V5, s.id) == NoteAt(V4, s.id) && V4.vers <= V5.vers <= V9.vers
  {
    var ci, cc, cb := ExprIds(s.init) + {s.id}, ExprIds(s.cmp), StmtIds(s.body) + (ExprIds(s.step) + {s.id});
    ChangedTrans(V4, V5, V9, cc, cb);
    ChangedTrans(V0, V4, V9, ci, cc + cb);
    assert ci + (cc + cb) == StmtIds(s);
    Disjoint(V4, V9, cc + cb, ExprIds(s.init));
    Disjoint(V5, V9, cb, cc);
    RootUsesFrame(s.init, P, V4, V9, at.top);
    DefFrame(s.init.id, P, V4, V9, at.next, s.init.id);
    UsesFrame(s.cmp, P, V5, V9, AtHeader(s, P, at).top);
  }

  lemma LoopOpnds(s: Stmt, P: Plan, V4: View, V6: View, V9: View, left: seq<nat>, right: seq<nat>, next: nat)
    requires s.Loop? && OpndSet(s.id, P, V4, 0, left) && ResultsSet(s.id, P, V4, next)
    requires NoteAt(V6, s.id) == NoteAt(V4, s.id) && V4.vers <= V6.vers <= V9.vers && Fits(P, V9)
    requires OneOpndSet(ListAt(V6.phi, s.id), ListAt(V9.phi, s.id), 1) && OpndSet(s.id, P, V9, 1, right)
    ensures PhisNamed(s.id, P, V9, left, right, next)
  {
    OpndFrame(s.id, P, V4, V6, 0, left);
    ResultsFrame(s.id, P, V4, V6, next);
    OpndKept(s.id, P, V6, V9, 0, 1, left);
    ResultsKept(s.id, P, V6, V9, 1, next);
    PhisComplete(s.id, P, V9, left, right, next);
  }

  /** Setting the variable whose new value `e` is, then phis of another node, keeps what `e` established. */
  lemma InitFrames(e: Expr, P: Plan, V1: View, V2: View, V4: View, top: seq<nat>, next: nat, id: nat)
    requires UniqueExpr(e) && UsesNamed(e, P, V1, top) && id !in ExprIds(e) && e.id in ExprIds(e)
    requires ChangedOnly(V1, V2, {e.id}) && ChangedOnly(V2, V4, {id}) && DefNamed(e.id, P, V2, next, e.id)
    ensures RootUsesNamed(e, P, V4, top) && DefNamed(e.id, P, V4, next, e.id)
  {
    ChangedTrans(V1, V2, V4, {e.id}, {id});
    Disjoint(V1, V4, {e.id} + {id}, ExprIds(e) - {e.id});
    RootFrame(e, P, V1, V4, top);
    DefFrame(e.id, P, V2, V4, next, e.id);
  }

  /** Marks can be popped: only versions of marked symbols were pushed above them. */
  lemma Poppable(t0: Stacks, t1: Stacks, list: seq<nat>, node: nat, d: set<nat>)
    requires Grown(Marked(t0, list, node), t1, d) && d <= Elems(list) && Walkable(list, |t0|)
    ensures |t1| == |t0| && NoDup(list)
    ensures forall k :: 0 <= k < |list| ==>
              list[k] < |t1| && var st := Stripped(t1[list[k]]); st != [] && st[|st| - 1] == Mark(node)
    ensures Grown(Marked(t0, list, node), t1, Elems(list))
  {
    forall k | 0 <= k < |list|
      ensures var st := Stripped(t1[list[k]]); st != [] && st[|st| - 1] == Mark(node)
    {
      PopReady(t0, t1, list, node, list[k], d);
    }
  }

  lemma EntryWalkable(f: Func, syms: seq<Sym>, P: Plan)
    requires EntryPlanned(f, syms, P)
    ensures Walkable(ListAt(P.chi, f.id), |syms|)
  {
    var list := ListAt(P.chi, f.id);
    forall k | 0 <= k < |list| ensures list[k] < |syms| {
      assert list[k] in Elems(list);
      assert list[k] in FormalSyms(syms, f.formals);
    }
  }

  lemma VersGrow(V: View, V': View, ids: set<nat>)
    requires ChangedOnly(V, V', ids)
    ensures V.vers <= V'.vers
  {
  }

  lemma ChangedNothing(V: View, ids: set<nat>)
    ensures ChangedOnly(V, V, ids)
  {
  }

  lemma OtherUse(id: nat, other: nat, P: Plan, V: View, V': View, top: seq<nat>)
    requires UseNamed(id, P, V, top) && ChangedOnly(V, V', {other}) && id != other
    ensures UseNamed(id, P, V', top)
  {
    UseFrame(id, P, V, V', top);
  }

  /** What the entry established still holds after the body. */
  lemma EntryFrames(f: Func, P: Plan, V1: View, V2: View, V3: View, top: seq<nat>, n: nat)
    requires WellFormed(f) && ChangedOnly(V1, V2, FormalIds(f.formals)) && ChangedOnly(V2, V3, StmtIds(f.body))
    requires ChisNamed(f.id, P, V1, ZeroPoint(n).top, n) && top == BodyPoint(f, P, n).top
    requires forall g :: g in f.formals ==> UseNamed(g.id, P, V2, top)
    ensures ChisNamed(f.id, P, V3, ZeroPoint(n).top, n)
    ensures forall g :: g in f.formals ==> UseNamed(g.id, P, V3, top)
  {
    ChangedTrans(V1, V2, V3, FormalIds(f.formals), StmtIds(f.body));
    assert NoteAt(V3, f.id) == NoteAt(V1, f.id);
    ChisFrame(f.id, P, V1, V3, ZeroPoint(n).top, n);
    forall g | g in f.formals ensures UseNamed(g.id, P, V3, top) {
      assert g.id in FormalIds(f.formals);
      assert NoteAt(V3, g.id) == NoteAt(V2, g.id);
      UseFrame(g.id, P, V2, V3, top);
    }
  }

  // ----- the stacks behind a statement ----------------------------------------

  function StacksAfterDef(id: nat, P: Plan, at: Point, t: Stacks): Stacks {
    PushEach(PushOne(t, SymOf(P, id), at.next), ListAt(P.chi, id), at.next + 1)
  }

  /** An `if` leaves its phi results, a loop the version its init set and its phi results, and nothing else. */
  function StacksAfter(s: Stmt, P: Plan, at: Point, t: Stacks): Stacks {
    match s
    case Skip => t
    case Seq(a, b) => StacksAfter(b, P, After(a, P, at), StacksAfter(a, P, at, t))
    case Store(id, _, _) => StacksAfterDef(id, P, at, t)
    case StoreAt(id, _, _, _) => StacksAfterDef(id, P, at, t)
    case Call(id, _, _, ret) => if ret.Some? then StacksAfterDef(id, P, at, t) else t
    case Retv(_, _, _) => t
    case If(id, _, a, b) =>
      PushEach(t, ListAt(P.phi, id), After(b, P, Point(at.top, After(a, P, at).next)).next)
    case Loop(id, _, i, _, _, _) =>
      PushEach(PushOne(t, SymOf(P, i.id), at.next), ListAt(P.phi, id), at.next + 1)
  }

  /** Stack balance of an `if`: one phi result for each symbol defined inside, no change for the others. */
  lemma IfBalanced(s: Stmt, syms: seq<Sym>, P: Plan, at: Point, t: Stacks, i: nat)
    requires s.If? && Planned(s, syms, P) && i < |t|
    ensures var t', phis := StacksAfter(s, P, at, t), ListAt(P.phi, s.id);
            var from := After(s.els, P, Point(at.top, After(s.thn, P, at).next)).next;
            if i in Defs(s, syms, P)
            then exists k :: 0 <= k < |phis| && phis[k] == i && t'[i] == t[i] + [Version(from + k)]
            else t'[i] == t[i]
  {
    var list := ListAt(P.phi, s.id);
    var from := After(s.els, P, Point(at.top, After(s.thn, P, at).next)).next;
    PushEachAt(t, list, from, i);
    assert i in Defs(s, syms, P) <==> i in Elems(list);
    if i in list {
      var k :| 0 <= k < |list| && list[k] == i;
      assert StacksAfter(s, P, at, t)[i] == t[i] + [Version(from + k)];
    }
  }

  /** Stack balance of a loop: one phi result each, and under it, for the induction variable, its init. */
  lemma LoopBalanced(s: Stmt, syms: seq<Sym>, P: Plan, at: Point, t: Stacks, i: nat)
    requires s.Loop? && Planned(s, syms, P) && i < |t|
    ensures var t', phis := StacksAfter(s, P, at, t), ListAt(P.phi, s.id);
            var init := if i == SymOf(P, s.init.id) then [Version(at.next)] else [];
            if i in Defs(s, syms, P)
            then exists k :: 0 <= k < |phis| && phis[k] == i && t'[i] == t[i] + init + [Version(at.next + 1 + k)]
            else t'[i] == t[i]
  {
    var list := ListAt(P.phi, s.id);
    var t1 := PushOne(t, SymOf(P, s.init.id), at.next);
    PushEachAt(t1, list, at.next + 1, i);
    assert i in Defs(s, syms, P) <==> i in Elems(list);
    var init := if i == SymOf(P, s.init.id) then [Version(at.next)] else [];
    assert t1[i] == t[i] + init;
    if i in list {
      var k :| 0 <= k < |list| && list[k] == i;
      assert StacksAfter(s, P, at, t)[i] == t[i] + init + [Version(at.next + 1 + k)];
    }
  }

  class RenameCtx {
    const cont: SsaContainer
    const stack: VersionStack

    constructor (cont: SsaContainer, stack: VersionStack)
      ensures this.cont == cont && this.stack == stack
    {
      this.cont, this.stack := cont, stack;
    }

    ghost predicate Valid(P: Plan)
      reads this, cont, stack
    {
      && |stack.stk| == |stack.lastVer| == |cont.syms|
      && AllHaveTop(stack.stk)
      && cont.nodeSym == P.nodeSym && Fits(P, cont.Now())
      && Numbered(cont.vers, stack.lastVer)
    }

    /** Current versions and next free version, as the stack-free renaming sees them. */
    ghost function Here(): Point
      reads this, cont, stack
    {
      Point(TopsOf(stack.stk), |cont.vers|)
    }

    method HandleUse(id: nat, ghost P: Plan)
      requires Valid(P) && id in P.nodeSym && P.nodeSym[id] < |cont.syms|
      modifies cont`nodeVer
      ensures Valid(P) && UseNamed(id, P, cont.Now(), Here().top)
      ensures ChangedOnly(old(cont.Now()), cont.Now(), {id})
    {
      var sym := cont.nodeSym[id];
      var ver := stack.TopVerId(sym);
      ghost var V := cont.Now();
      cont.nodeVer := cont.nodeVer[id := ver];
      assert forall i :: FitsAt(P, cont.Now(), i) <== FitsAt(P, V, i);
    }

    /** Makes the next version of `sym`, records who defines it, and pushes it. */
    method DefineNext(sym: nat, def: Def, ghost P: Plan) returns (ver: nat)
      requires Valid(P) && sym < |cont.syms|
      modifies cont`vers, stack
      ensures Valid(P) && ver == old(Here().next) && HasVer(cont.Now(), ver, sym, def)
      ensures Here() == Point(Set(old(Here().top), sym, ver), ver + 1)
      ensures Grown(old(stack.stk), stack.stk, {sym}) && stack.stk == PushOne(old(stack.stk), sym, ver)
      ensures ChangedOnly(old(cont.Now()), cont.Now(), {})
    {
      ghost var vers, last := cont.vers, stack.lastVer;
      ghost var V := cont.Now();
      ver := cont.NewVer(sym);
      var number := stack.NextVersion(sym);
      cont.SetDef(ver, number, def);
      stack.PushVer(sym, ver);
      assert cont.vers == vers + [Ver(sym, Some(last[sym] + 1), def)];
      NumberedExtends(vers, last, sym, def);
      assert forall i :: FitsAt(P, cont.Now(), i) <== FitsAt(P, V, i);
    }

    method HandleDef(id: nat, ghost P: Plan)
      requires Valid(P) && id in P.nodeSym && P.nodeSym[id] < |cont.syms|
      modifies cont`vers, cont`nodeVer, stack
      ensures Valid(P) && DefNamed(id, P, cont.Now(), old(Here().next), id)
      ensures Here() == Point(Set(old(Here().top), SymOf(P, id), old(Here().next)), old(Here().next) + 1)
      ensures Grown(old(stack.stk), stack.stk, {SymOf(P, id)})
      ensures stack.stk == PushOne(old(stack.stk), SymOf(P, id), old(Here().next))
      ensures ChangedOnly(old(cont.Now()), cont.Now(), {id})
    {
      var sym := cont.nodeSym[id];
      var ver := DefineNext(sym, ByStmt(id), P);
      ghost var V := cont.Now();
      cont.nodeVer := cont.nodeVer[id := ver];
      assert forall i :: FitsAt(P, cont.Now(), i) <== FitsAt(P, V, i);
    }

    method VisitExpr(e: Expr, ghost P: Plan)
      requires Valid(P) && Visitable(e, P, |cont.syms|)
      requires UniqueExpr(e) && Unnamed(ExprIds(e), cont.Now())
      modifies cont`nodeVer
      ensures Valid(P) && UsesNamed(e, P, cont.Now(), Here().top)
      ensures ChangedOnly(old(cont.Now()), cont.Now(), ExprIds(e))
      decreases e
    {
      match e
      case Leaf(_, _) =>
      case Node(_, _, l, r) =>
        VisitExpr(l, P);
        ghost var V := cont.Now();
        Disjoint(old(cont.Now()), V, ExprIds(l), ExprIds(r));
        UnnamedFrame(ExprIds(r), old(cont.Now()), V);
        VisitExpr(r, P);
        Disjoint(V, cont.Now(), ExprIds(r), ExprIds(l));
        UsesFrame(l, P, V, cont.Now(), Here().top);
      case Load(id, _) => HandleUse(id, P);
      case LoadAt(id, _, sub) =>
        VisitExpr(sub, P);
        ghost var V := cont.Now();
        HandleUse(id, P);
        Disjoint(V, cont.Now(), {id}, ExprIds(sub));
        UsesFrame(sub, P, V, cont.Now(), Here().top);
      case TableAt(_, _, _) =>
    }

    /** One chi: its operand is the current version, its result a new one. */
    method RenameChi(id: nat, k: nat, ghost P: Plan)
      requires Valid(P) && k < |ListAt(cont.chi, id)| && ListAt(cont.chi, id)[k].sym < |cont.syms|
      modifies cont`vers, cont`chi, stack
      ensures Valid(P)
      ensures var at, c := old(Here()), old(ListAt(cont.chi, id)[k]);
              && ListAt(cont.chi, id) == old(ListAt(cont.chi, id))
                 [k := c.(opnd := Some(at.top[c.sym]), res := Some(at.next), defStmt := Some(id))]
              && HasVer(cont.Now(), at.next, c.sym, ByChi(id, k))
              && Here() == Point(Set(at.top, c.sym, at.next), at.next + 1)
              && Grown(old(stack.stk), stack.stk, {c.sym})
              && stack.stk == PushOne(old(stack.stk), c.sym, at.next)
      ensures ChangedOnly(old(cont.Now()), cont.Now(), {id})
    {
      var list := cont.chi[id];
      var sym := list[k].sym;
      var opnd := stack.TopVerId(sym);
      list := list[k := list[k].(opnd := Some(opnd))];
      var ver := DefineNext(sym, ByChi(id, k), P);
      ghost var V := cont.Now();
      list := list[k := list[k].(res := Some(ver), defStmt := Some(id))];
      assert ChiSyms(list) == ChiSyms(cont.chi[id]);
      cont.chi := cont.chi[id := list];
      assert forall i :: FitsAt(P, cont.Now(), i) <== FitsAt(P, V, i);
    }

    method RenameChiList(id: nat, ghost P: Plan)
      requires Valid(P) && Walkable(ListAt(P.chi, id), |cont.syms|)
      modifies cont`vers, cont`chi, stack
      ensures Valid(P) && ChisNamed(id, P, cont.Now(), old(Here().top), old(Here().next))
      ensures Here() == Point(PushAll(ListAt(P.chi, id), old(Here().top), old(Here().next)),
                              old(Here().next) + |ListAt(P.chi, id)|)
      ensures Grown(old(stack.stk), stack.stk, Elems(ListAt(P.chi, id)))
      ensures stack.stk == PushEach(old(stack.stk), ListAt(P.chi, id), old(Here().next))
      ensures ChangedOnly(old(cont.Now()), cont.Now(), {id})
    {
      hide Grown, Elems, ChangedOnly, NoteAt, PushAll, PushOne, PushEach, AllVersions, HasVer, Numbered, FitsAt,
           NoDup, Walkable, TopOf, TopsOf, ChiSyms, PhiSyms;
      ghost var syms, at, V0 := ListAt(P.chi, id), Here(), cont.Now();
      FitsLists(P, V0, id);
      PushNone(id, syms, V0, stack.stk);
      var k := 0;
      while k < |ListAt(cont.chi, id)|
        invariant 0 <= k <= |ListAt(cont.chi, id)| && Valid(P)
        invariant ChisSoFar(id, ListAt(cont.chi, id), syms, cont.Now(), at, k)
        invariant Pushed(id, syms, V0, old(stack.stk), cont.Now(), stack.stk, at, k)
      {
        ghost var t, V, list := stack.stk, cont.Now(), ListAt(cont.chi, id);
        ChiSymsAt(list, k);
        NextOfList(syms, at.top, at.next, k);
        RenameChi(id, k, P);
        ChiStep(id, list, ListAt(cont.chi, id), syms, V, cont.Now(), at, k);
        PushStep(id, syms, V0, old(stack.stk), V, t, cont.Now(), stack.stk, at, k);
        k := k + 1;
      }
      assert syms[..|syms|] == syms;
    }

    /** Operand `opnd` of one phi is the current version of its symbol. */
    method SetOpnd(id: nat, k: nat, opnd: nat, ghost P: Plan)
      requires Valid(P) && k < |ListAt(cont.phi, id)| && ListAt(cont.phi, id)[k].sym < |cont.syms|
      requires opnd < |ListAt(cont.phi, id)[k].opnd| && ListAt(cont.phi, id)[k].opnd[opnd] == None
      modifies cont`phi
      ensures Valid(P) && ChangedOnly(old(cont.Now()), cont.Now(), {id})
      ensures var p := old(ListAt(cont.phi, id)[k]);
              ListAt(cont.phi, id) == old(ListAt(cont.phi, id))
                [k := p.(opnd := p.opnd[opnd := Some(Here().top[p.sym])])]
    {
      ghost var V := cont.Now();
      var list := cont.phi[id];
      var ver := stack.TopVerId(list[k].sym);
      list := list[k := list[k].(opnd := list[k].opnd[opnd := Some(ver)])];
      assert PhiSyms(list) == PhiSyms(ListAt(cont.phi, id));
      PhiListSet(id, P, V, list);
      cont.phi := cont.phi[id := list];
    }

    method RenamePhiOpnd(id: nat, opnd: nat, ghost P: Plan)
      requires Valid(P) && opnd < 2 && Walkable(ListAt(P.phi, id), |cont.syms|)
      requires OpndBlank(id, cont.Now(), opnd)
      modifies cont`phi
      ensures Valid(P) && OpndSet(id, P, cont.Now(), opnd, Here().top)
      ensures ChangedOnly(old(cont.Now()), cont.Now(), {id})
      ensures OneOpndSet(old(ListAt(cont.phi, id)), ListAt(cont.phi, id), opnd)
    {
      hide Numbered, HasVer, NoDup, FitsAt, NoteAt, WithOpnd, OneOpndSet, OpndSet, ChangedOnly;
      ghost var first, V0, top := ListAt(cont.phi, id), cont.Now(), Here().top;
      OpndNone(id, P, V0, opnd, top);
      ChangedNone(V0, id);
      var k := 0;
      while k < |ListAt(cont.phi, id)|
        invariant 0 <= k <= |first| == |ListAt(cont.phi, id)| && Valid(P) && Here().top == top
        invariant WithOpnd(first, ListAt(cont.phi, id), opnd, top, k)
        invariant ChangedOnly(V0, cont.Now(), {id})
      {
        ghost var V, list := cont.Now(), ListAt(cont.phi, id);
        OpndNext(first, list, opnd, top, k);
        SetOpnd(id, k, opnd, P);
        OpndStep(first, list, ListAt(cont.phi, id), opnd, top, k);
        ChangedTrans(V0, V, cont.Now(), {id}, {id});
        assert {id} + {id} == {id};
        k := k + 1;
      }
      OpndDone(id, P, cont.Now(), first, opnd, top);
    }

    /** The result of one phi. */
    method RenamePhi(id: nat, k: nat, ghost P: Plan)
      requires Valid(P) && k < |ListAt(cont.phi, id)| && ListAt(cont.phi, id)[k].sym < |cont.syms|
      modifies cont`vers, cont`phi, stack
      ensures Valid(P)
      ensures var at, p := old(Here()), old(ListAt(cont.phi, id)[k]);
              && ListAt(cont.phi, id) == old(ListAt(cont.phi, id))
                 [k := p.(res := Some(at.next), defStmt := Some(id))]
              && HasVer(cont.Now(), at.next, p.sym, ByPhi(id, k))
              && Here() == Point(Set(at.top, p.sym, at.next), at.next + 1)
              && Grown(old(stack.stk), stack.stk, {p.sym})
              && stack.stk == PushOne(old(stack.stk), p.sym, at.next)
      ensures ChangedOnly(old(cont.Now()), cont.Now(), {id})
    {
      var list := cont.phi[id];
      var ver := DefineNext(list[k].sym, ByPhi(id, k), P);
      ghost var V := cont.Now();
      list := list[k := list[k].(defStmt := Some(id))];
      list := list[k := list[k].(res := Some(ver))];
      assert PhiSyms(list) == PhiSyms(cont.phi[id]);
      cont.phi := cont.phi[id := list];
      assert forall i :: FitsAt(P, cont.Now(), i) <== FitsAt(P, V, i);
    }

    method RenamePhiList(id: nat, ghost P: Plan)
      requires Valid(P) && Walkable(ListAt(P.phi, id), |cont.syms|)
      modifies cont`vers, cont`phi, stack
      ensures Valid(P) && ResultsSet(id, P, cont.Now(), old(Here().next))
      ensures Here() == AfterPhis(id, P, old(Here()))
      ensures Grown(old(stack.stk), stack.stk, Elems(ListAt(P.phi, id)))
      ensures stack.stk == PushEach(old(stack.stk), ListAt(P.phi, id), old(Here().next))
      ensures ChangedOnly(old(cont.Now()), cont.Now(), {id})
      ensures SameOpnds(old(ListAt(cont.phi, id)), ListAt(cont.phi, id))
    {
      hide Grown, Elems, ChangedOnly, NoteAt, PushAll, PushOne, PushEach, AllVersions, HasVer, Numbered, FitsAt,
           NoDup, Walkable, TopOf, TopsOf, ChiSyms, PhiSyms;
      ghost var syms, at, V0 := ListAt(P.phi, id), Here(), cont.Now();
      ghost var first := ListAt(cont.phi, id);
      FitsLists(P, V0, id);
      PushNone(id, syms, V0, stack.stk);
      var k := 0;
      while k < |ListAt(cont.phi, id)|
        invariant 0 <= k <= |ListAt(cont.phi, id)| && Valid(P)
        invariant PhisSoFar(id, first, ListAt(cont.phi, id), syms, cont.Now(), at.next, k)
        invariant Pushed(id, syms, V0, old(stack.stk), cont.Now(), stack.stk, at, k)
      {
        ghost var t, V, list := stack.stk, cont.Now(), ListAt(cont.phi, id);
        PhiSymsAt(list, k);
        NextOfList(syms, at.top, at.next, k);
        RenamePhi(id, k, P);
        PhiStep(id, first, list, ListAt(cont.phi, id), syms, V, cont.Now(), at.next, k);
        PushStep(id, syms, V0, old(stack.stk), V, t, cont.Now(), stack.stk, at, k);
        k := k + 1;
      }
      assert syms[..|syms|] == syms;
    }

    method RenameMuList(id: nat, ghost P: Plan)
      requires Valid(P) && Walkable(ListAt(P.mu, id), |cont.syms|)
      modifies cont`mu
      ensures Valid(P) && MusNamed(id, P, cont.Now(), Here().top)
      ensures ChangedOnly(old(cont.Now()), cont.Now(), {id})
    {
      hide Numbered, HasVer, NoDup, AllVersions;
      var list := ListAt(cont.mu, id);
      ghost var V0 := cont.Now();
      ghost var syms := ListAt(P.mu, id);
      FitsLists(P, V0, id);
      var k := 0;
      while k < |list|
        invariant 0 <= k <= |list| == |syms| && Valid(P)
        invariant list == ListAt(cont.mu, id) && MuSyms(list) == syms
        invariant ChangedOnly(V0, cont.Now(), {id})
        invariant forall j :: 0 <= j < k ==> list[j].opnd == Some(Here().top[syms[j]])
      {
        var sym := list[k].sym;
        assert syms[k] == sym;
        var opnd := stack.TopVerId(sym);
        ghost var V := cont.Now();
        list := list[k := list[k].(opnd := Some(opnd))];
        assert MuSyms(list) == syms;
        cont.mu := cont.mu[id := list];
        assert forall i :: FitsAt(P, cont.Now(), i) <== FitsAt(P, V, i);
        k := k + 1;
      }
      assert forall j :: 0 <= j < |list| ==> syms[j] == list[j].sym;
    }

    /** Direct definition of the symbol of node `id`, then its chi list. */
    method HandleDefAndChi(id: nat, ghost d: Place, ghost P: Plan)
      requires Valid(P) && DefPlanned(id, d, cont.syms, P)
      modifies cont`vers, cont`nodeVer, cont`chi, stack
      ensures Valid(P) && StoreNamed(id, P, cont.Now(), old(Here()))
      ensures Here() == AfterDef(id, P, old(Here()))
      ensures Grown(old(stack.stk), stack.stk, {SymOf(P, id)} + Relatives(cont.syms, SymOf(P, id)))
      ensures stack.stk == StacksAfterDef(id, P, old(Here()), old(stack.stk))
      ensures ChangedOnly(old(cont.Now()), cont.Now(), {id})
    {
      hide NoDup, Numbered, TopOf, TopsOf, FitsAt, ChisNamed, Related, AllVersions, PushAll;
      DefWalkable(id, d, cont.syms, P);
      HandleDef(id, P);
      ghost var V, t := cont.Now(), stack.stk;
      RenameChiList(id, P);
      GrownTrans(old(stack.stk), t, stack.stk, {SymOf(P, id)}, Elems(ListAt(P.chi, id)));
    }

    method VisitStmt(s: Stmt, ghost P: Plan)
      requires Valid(P) && Planned(s, cont.syms, P) && UniqueStmt(s) && Blank(cont.Now(), StmtIds(s))
      modifies cont`vers, cont`nodeVer, cont`mu, cont`chi, cont`phi, stack
      ensures Valid(P) && Renamed(s, P, cont.Now(), old(Here()))
      ensures Here() == After(s, P, old(Here()))
      ensures Grown(old(stack.stk), stack.stk, Defs(s, cont.syms, P))
      ensures stack.stk == StacksAfter(s, P, old(Here()), old(stack.stk))
      ensures ChangedOnly(old(cont.Now()), cont.Now(), StmtIds(s))
      decreases s, 1
    {
      match s
      case Skip =>
      case Seq(a, b) => HandleSeq(s, P);
      case Store(_, _, _) => HandleStore(s, P);
      case StoreAt(_, _, _, _) => HandleStoreAt(s, P);
      case Call(_, _, _, _) => HandleCall(s, P);
      case Retv(_, _, _) => HandleRetv(s, P);
      case If(_, _, _, _) => HandleIf(s, P);
      case Loop(_, _, _, _, _, _) => HandleDoLoop(s, P);
    }

    method HandleSeq(s: Stmt, ghost P: Plan)
      requires s.Seq?
      requires Valid(P) && Planned(s, cont.syms, P) && UniqueStmt(s) && Blank(cont.Now(), StmtIds(s))
      modifies cont`vers, cont`nodeVer, cont`mu, cont`chi, cont`phi, stack
      ensures Valid(P) && Renamed(s, P, cont.Now(), old(Here()))
      ensures Here() == After(s, P, old(Here()))
      ensures Grown(old(stack.stk), stack.stk, Defs(s, cont.syms, P))
      ensures stack.stk == StacksAfter(s, P, old(Here()), old(stack.stk))
      ensures ChangedOnly(old(cont.Now()), cont.Now(), StmtIds(s))
      decreases s, 0
    {
      hide NoDup, Numbered, TopOf, TopsOf, FitsAt, Grown, ChangedOnly, SameOn, AllVersions, NoteAt, Blank,
           DistinctPlaces;
      ghost var V0, t0 := cont.Now(), stack.stk;
      BlankPart(V0, StmtIds(s), StmtIds(s.first));
      BlankPart(V0, StmtIds(s), StmtIds(s.second));
      VisitStmt(s.first, P);
      ghost var V1, t1 := cont.Now(), stack.stk;
      BlankFrame(V0, V1, StmtIds(s.first), StmtIds(s.second));
      VisitStmt(s.second, P);
      Disjoint(V1, cont.Now(), StmtIds(s.second), StmtIds(s.first));
      RenamedFrame(s.first, P, V1, cont.Now(), old(Here()));
      ChangedTrans(V0, V1, cont.Now(), StmtIds(s.first), StmtIds(s.second));
      GrownTrans(t0, t1, stack.stk, Defs(s.first, cont.syms, P), Defs(s.second, cont.syms, P));
    }

    method HandleStore(s: Stmt, ghost P: Plan)
      requires s.Store?
      requires Valid(P) && Planned(s, cont.syms, P) && UniqueStmt(s) && Blank(cont.Now(), StmtIds(s))
      modifies cont`vers, cont`nodeVer, cont`chi, stack
      ensures Valid(P) && Renamed(s, P, cont.Now(), old(Here()))
      ensures Here() == After(s, P, old(Here()))
      ensures Grown(old(stack.stk), stack.stk, Defs(s, cont.syms, P))
      ensures stack.stk == StacksAfter(s, P, old(Here()), old(stack.stk))
      ensures ChangedOnly(old(cont.Now()), cont.Now(), StmtIds(s))
    {
      hide NoDup, Numbered, TopOf, TopsOf, FitsAt, Grown, AllVersions, NoteAt, ChangedOnly, SameOn, DefPlanned,
           StoreNamed, AfterDef;
      ghost var V0 := cont.Now();
      PlannedVisitable(s.rhs, cont.syms, P);
      VisitExpr(s.rhs, P);
      ghost var V1 := cont.Now();
      HandleDefAndChi(s.id, s.p, P);
      Disjoint(V1, cont.Now(), {s.id}, ExprIds(s.rhs));
      UsesFrame(s.rhs, P, V1, cont.Now(), old(Here()).top);
      ChangedTrans(V0, V1, cont.Now(), ExprIds(s.rhs), {s.id});
      assert ExprIds(s.rhs) + {s.id} == StmtIds(s);
    }

    method HandleStoreAt(s: Stmt, ghost P: Plan)
      requires s.StoreAt?
      requires Valid(P) && Planned(s, cont.syms, P) && UniqueStmt(s) && Blank(cont.Now(), StmtIds(s))
      modifies cont`vers, cont`nodeVer, cont`chi, stack
      ensures Valid(P) && Renamed(s, P, cont.Now(), old(Here()))
      ensures Here() == After(s, P, old(Here()))
      ensures Grown(old(stack.stk), stack.stk, Defs(s, cont.syms, P))
      ensures stack.stk == StacksAfter(s, P, old(Here()), old(stack.stk))
      ensures ChangedOnly(old(cont.Now()), cont.Now(), StmtIds(s))
    {
      hide NoDup, Numbered, TopOf, TopsOf, FitsAt, Grown, AllVersions, NoteAt, ChangedOnly, SameOn, DefPlanned,
           StoreNamed, AfterDef;
      ghost var V0, top := cont.Now(), Here().top;
      PlannedVisitable(s.rhs, cont.syms, P);
      PlannedVisitable(s.sub, cont.syms, P);
      VisitExpr(s.rhs, P);
      ghost var V1 := cont.Now();
      Disjoint(V0, V1, ExprIds(s.rhs), ExprIds(s.sub));
      UnnamedFrame(ExprIds(s.sub), V0, V1);
      VisitExpr(s.sub, P);
      ghost var V2 := cont.Now();
      HandleDefAndChi(s.id, Whole(s.v), P);
      ghost var V3 := cont.Now();
      ChangedTrans(V1, V2, V3, ExprIds(s.sub), {s.id});
      Disjoint(V1, V3, ExprIds(s.sub) + {s.id}, ExprIds(s.rhs));
      UsesFrame(s.rhs, P, V1, V3, top);
      Disjoint(V2, V3, {s.id}, ExprIds(s.sub));
      UsesFrame(s.sub, P, V2, V3, top);
      ChangedTrans(V0, V1, V3, ExprIds(s.rhs), ExprIds(s.sub) + {s.id});
      assert ExprIds(s.rhs) + (ExprIds(s.sub) + {s.id}) == StmtIds(s);
    }

    method HandleCall(s: Stmt, ghost P: Plan)
      requires s.Call?
      requires Valid(P) && Planned(s, cont.syms, P) && UniqueStmt(s) && Blank(cont.Now(), StmtIds(s))
      modifies cont`vers, cont`nodeVer, cont`chi, stack
      ensures Valid(P) && Renamed(s, P, cont.Now(), old(Here()))
      ensures Here() == After(s, P, old(Here()))
      ensures Grown(old(stack.stk), stack.stk, Defs(s, cont.syms, P))
      ensures stack.stk == StacksAfter(s, P, old(Here()), old(stack.stk))
      ensures ChangedOnly(old(cont.Now()), cont.Now(), StmtIds(s))
    {
      hide NoDup, Numbered, TopOf, TopsOf, FitsAt, NoteAt, DefPlanned, StoreNamed, AfterDef;
      ghost var V0 := cont.Now();
      PlannedVisitable(s.args, cont.syms, P);
      VisitExpr(s.args, P);
      if s.ret.Some? {
        ghost var V1 := cont.Now();
        HandleDefAndChi(s.id, Whole(s.ret.value), P);
        Disjoint(V1, cont.Now(), {s.id}, ExprIds(s.args));
        UsesFrame(s.args, P, V1, cont.Now(), old(Here()).top);
        ChangedTrans(V0, V1, cont.Now(), ExprIds(s.args), {s.id});
      }
    }

    method HandleRetv(s: Stmt, ghost P: Plan)
      requires s.Retv?
      requires Valid(P) && Planned(s, cont.syms, P) && UniqueStmt(s) && Blank(cont.Now(), StmtIds(s))
      modifies cont`nodeVer, cont`mu
      ensures Valid(P) && Renamed(s, P, cont.Now(), Here())
      ensures ChangedOnly(old(cont.Now()), cont.Now(), StmtIds(s))
    {
      ghost var list := ListAt(P.mu, s.id);
      forall k | 0 <= k < |list| ensures list[k] < |cont.syms| {
        assert list[k] in Elems(list);
        assert list[k] in {SymOf(P, s.kid)} + Relatives(cont.syms, SymOf(P, s.kid));
      }
      HandleUse(s.kid, P);
      RenameMuList(s.id, P);
    }

    /** Pushes the marks of node `id` on the symbols of its phis. */
    method PushMark(id: nat, ghost P: Plan)
      requires Valid(P) && Walkable(ListAt(P.phi, id), |cont.syms|)
      modifies stack
      ensures Valid(P) && Here() == old(Here())
      ensures stack.stk == Marked(old(stack.stk), ListAt(P.phi, id), id) && stack.lastVer == old(stack.lastVer)
    {
      FitsLists(P, cont.Now(), id);
      MarkedTops(stack.stk, ListAt(P.phi, id), id);
      stack.PushMark(PhiSyms(ListAt(cont.phi, id)), id);
    }

    /** Pops what a block pushed since the marks `base` got from node `id`: the stacks are `base` again. */
    method PopMark(id: nat, ghost base: Stacks, ghost d: set<nat>, ghost P: Plan)
      requires Valid(P) && Walkable(ListAt(P.phi, id), |cont.syms|)
      requires |base| == |cont.syms| && AllHaveTop(base)
      requires Grown(Marked(base, ListAt(P.phi, id), id), stack.stk, d) && d <= Elems(ListAt(P.phi, id))
      modifies stack
      ensures Valid(P) && stack.stk == base && stack.lastVer == old(stack.lastVer)
    {
      FitsLists(P, cont.Now(), id);
      Poppable(base, stack.stk, ListAt(P.phi, id), id, d);
      ghost var t := stack.stk;
      stack.PopMark(PhiSyms(ListAt(cont.phi, id)), id);
      PopRestores(base, t, stack.stk, ListAt(P.phi, id), id);
    }

    /** One branch: mark, visit, set phi operand `k`, pop the mark. */
    method HandleBranch(s: Stmt, b: Stmt, k: nat, ghost P: Plan)
      requires s.If? && k < 2 && b == (if k == 0 then s.thn else s.els)
      requires Valid(P) && Planned(b, cont.syms, P) && UniqueStmt(b) && Blank(cont.Now(), StmtIds(b))
      requires s.id !in StmtIds(b) && OpndBlank(s.id, cont.Now(), k)
      requires Walkable(ListAt(P.phi, s.id), |cont.syms|) && Defs(b, cont.syms, P) <= Elems(ListAt(P.phi, s.id))
      modifies cont`vers, cont`nodeVer, cont`mu, cont`chi, cont`phi, stack
      ensures Valid(P) && Renamed(b, P, cont.Now(), old(Here()))
      ensures Here() == Point(old(Here().top), After(b, P, old(Here())).next) && stack.stk == old(stack.stk)
      ensures OpndSet(s.id, P, cont.Now(), k, After(b, P, old(Here())).top)
      ensures OneOpndSet(old(ListAt(cont.phi, s.id)), ListAt(cont.phi, s.id), k)
      ensures ChangedOnly(old(cont.Now()), cont.Now(), StmtIds(b) + {s.id})
      decreases b, 2
    {
      hide NoDup, Numbered, TopOf, FitsAt, Grown, ChangedOnly, SameOn, AllVersions, NoteAt, Blank, Planned, Walkable,
           OpndSet, OpndBlank, OneOpndSet, Marked, Unnamed, UniqueStmt, PhiSyms, Elems, StmtIds, After, Renamed;
      ghost var V0, t0, at, ids := cont.Now(), stack.stk, Here(), StmtIds(b);
      PushMark(s.id, P);
      VisitStmt(b, P);
      ghost var V1 := cont.Now();
      SameList(V0, V1, ids, s.id);
      BlankListed(s.id, V0, V1, k);
      RenamePhiOpnd(s.id, k, P);
      PopMark(s.id, t0, Defs(b, cont.syms, P), P);
      ghost var V2 := cont.Now();
      ChangedTrans(V0, V1, V2, ids, {s.id});
      Disjoint(V1, V2, {s.id}, ids);
      RenamedFrame(b, P, V1, V2, at);
    }

    method HandleIf(s: Stmt, ghost P: Plan)
      requires s.If?
      requires Valid(P) && Planned(s, cont.syms, P) && UniqueStmt(s) && Blank(cont.Now(), StmtIds(s))
      modifies cont`vers, cont`nodeVer, cont`mu, cont`chi, cont`phi, stack
      ensures Valid(P) && Renamed(s, P, cont.Now(), old(Here()))
      ensures Here() == After(s, P, old(Here()))
      ensures Grown(old(stack.stk), stack.stk, Defs(s, cont.syms, P))
      ensures stack.stk == StacksAfter(s, P, old(Here()), old(stack.stk))
      ensures ChangedOnly(old(cont.Now()), cont.Now(), StmtIds(s))
      decreases s, 0
    {
      hide NoDup, Numbered, TopOf, TopsOf, FitsAt, Grown, ChangedOnly, SameOn, AllVersions, NoteAt, Blank, Planned,
           Walkable, OpndSet, OpndBlank, OneOpndSet, ResultsSet, SameOpnds, Marked, Unnamed, UniqueStmt, UsesNamed,
           Visitable, AllHaveTop, PhisNamed, HasVer, PhiSyms, PushOne, PushEach;
      var id := s.id;
      ghost var V0, at := cont.Now(), Here();
      IfParts(s, cont.syms, P, V0);
      VisitExpr(s.cond, P);
      ghost var V1 := cont.Now();
      BlankFrame(V0, V1, ExprIds(s.cond), StmtIds(s.thn));
      BlankFrame(V0, V1, ExprIds(s.cond), StmtIds(s.els));
      BlankFrame(V0, V1, ExprIds(s.cond), {id});
      BlankOpnd(id, V1, {id}, 0);
      BlankOpnd(id, V1, {id}, 1);
      HandleBranch(s, s.thn, 0, P);
      ghost var V3, pa := cont.Now(), After(s.thn, P, at);
      BlankKept(id, V1, V3);
      BlankFrame(V1, V3, StmtIds(s.thn) + {id}, StmtIds(s.els));
      ghost var at1 := Here();
      HandleBranch(s, s.els, 1, P);
      ghost var V5, pb := cont.Now(), After(s.els, P, at1);
      RenamePhiList(id, P);
      ghost var V6 := cont.Now();
      OpndKept(id, P, V3, V5, 0, 1, pa.top);
      OpndSame(id, P, V5, V6, 0, pa.top);
      OpndSame(id, P, V5, V6, 1, pb.top);
      PhisComplete(id, P, V6, pa.top, pb.top, pb.next);
      IfFrames(s, P, V0, V1, V3, V5, V6, at, at1);
    }

    /** The init expression, the induction variable it sets, phi operand 0 and the phi results. */
    method EnterLoop(s: Stmt, ghost P: Plan)
      requires s.Loop?
      requires Valid(P) && Planned(s, cont.syms, P) && UniqueStmt(s) && Blank(cont.Now(), StmtIds(s))
      modifies cont`vers, cont`nodeVer, cont`phi, stack
      ensures Valid(P) && Here() == AtHeader(s, P, old(Here()))
      ensures RootUsesNamed(s.init, P, cont.Now(), old(Here().top))
      ensures DefNamed(s.init.id, P, cont.Now(), old(Here().next), s.init.id)
      ensures OpndSet(s.id, P, cont.Now(), 0, Set(old(Here().top), SymOf(P, s.init.id), old(Here().next)))
      ensures OpndBlank(s.id, cont.Now(), 1)
      ensures ResultsSet(s.id, P, cont.Now(), old(Here().next) + 1)
      ensures Grown(old(stack.stk), stack.stk, Elems(ListAt(P.phi, s.id)))
      ensures stack.stk == StacksAfter(s, P, old(Here()), old(stack.stk))
      ensures ChangedOnly(old(cont.Now()), cont.Now(), ExprIds(s.init) + {s.id})
    {
      hide NoDup, Numbered, TopOf, TopsOf, FitsAt, Grown, ChangedOnly, SameOn, AllVersions, NoteAt, Blank, Planned,
           Walkable, OpndSet, OpndBlank, OneOpndSet, ResultsSet, SameOpnds, Unnamed, UniqueStmt, UsesNamed, Defs,
           Visitable, AllHaveTop, HasVer, DefNamed, RootUsesNamed, PhiSyms, StmtIds, Relatives, PushOne, PushEach,
           PushAll, Fits, NoDup, UniqueExpr, ListAt;
      var id := s.id;
      ghost var V0, t0, top := cont.Now(), stack.stk, Here().top;
      ghost var iv, phis, ids := SymOf(P, s.init.id), ListAt(P.phi, id), ExprIds(s.init);
      LoopParts(s, cont.syms, P, V0);
      VisitExpr(s.init, P);
      ghost var V1 := cont.Now();
      HandleDef(s.init.id, P);
      ghost var V2, t2 := cont.Now(), stack.stk;
      ChangedTrans(V0, V1, V2, ids, {s.init.id});
      assert ids + {s.init.id} == ids;
      BlankFrame(V0, V2, ids, {id});
      BlankOpnd(id, V2, {id}, 0);
      BlankOpnd(id, V2, {id}, 1);
      RenamePhiOpnd(id, 0, P);
      ghost var V3 := cont.Now();
      BlankKept(id, V2, V3);
      RenamePhiList(id, P);
      ghost var V4 := cont.Now();
      OpndSame(id, P, V3, V4, 0, Set(top, iv, |V1.vers|));
      BlankSame(id, V3, V4, 1);
      GrownTrans(t0, t2, stack.stk, {iv}, Elems(phis));
      assert {iv} + Elems(phis) == Elems(phis);
      ChangedTrans(V2, V3, V4, {id}, {id});
      assert {id} + {id} == {id};
      ChangedTrans(V0, V2, V4, ids, {id});
      InitFrames(s.init, P, V1, V2, V4, top, |V1.vers|, id);
    }

    /** The step expression, the induction variable it sets, and phi operand 1. */
    method CloseLoop(s: Stmt, ghost P: Plan)
      requires s.Loop? && Valid(P) && UniqueExpr(s.step) && Visitable(s.step, P, |cont.syms|)
      requires Unnamed(ExprIds(s.step), cont.Now()) && s.id !in ExprIds(s.step) && s.step.id in ExprIds(s.step)
      requires s.step.id in P.nodeSym && P.nodeSym[s.step.id] < |cont.syms|
      requires Walkable(ListAt(P.phi, s.id), |cont.syms|) && OpndBlank(s.id, cont.Now(), 1)
      modifies cont`vers, cont`nodeVer, cont`phi, stack
      ensures Valid(P)
      ensures Here() == Point(Set(old(Here().top), SymOf(P, s.step.id), old(Here().next)), old(Here().next) + 1)
      ensures RootUsesNamed(s.step, P, cont.Now(), old(Here().top))
      ensures DefNamed(s.step.id, P, cont.Now(), old(Here().next), s.step.id)
      ensures OpndSet(s.id, P, cont.Now(), 1, Here().top)
      ensures OneOpndSet(old(ListAt(cont.phi, s.id)), ListAt(cont.phi, s.id), 1)
      ensures Grown(old(stack.stk), stack.stk, {SymOf(P, s.step.id)})
      ensures ChangedOnly(old(cont.Now()), cont.Now(), ExprIds(s.step) + {s.id})
    {
      hide NoDup, Numbered, TopOf, TopsOf, FitsAt, Grown, ChangedOnly, SameOn, AllVersions, NoteAt, Walkable, OpndSet,
           OpndBlank, OneOpndSet, Unnamed, UsesNamed, Visitable, AllHaveTop, HasVer, DefNamed, RootUsesNamed, PhiSyms;
      var id := s.id;
      ghost var V0, top, ids := cont.Now(), Here().top, ExprIds(s.step);
      VisitExpr(s.step, P);
      ghost var V1 := cont.Now();
      HandleDef(s.step.id, P);
      ghost var V2 := cont.Now();
      BlankListed(id, V0, V2, 1);
      RenamePhiOpnd(id, 1, P);
      ghost var V4 := cont.Now();
      ChangedTrans(V0, V1, V2, ids, {s.step.id});
      assert ids + {s.step.id} == ids;
      ChangedTrans(V0, V2, V4, ids, {id});
      InitFrames(s.step, P, V1, V2, V4, top, |V1.vers|, id);
    }

    /** The body under marks, the step, phi operand 1, and the marks popped. */
    method HandleBody(s: Stmt, ghost P: Plan)
      requires s.Loop? && Valid(P) && Planned(s.body, cont.syms, P) && UniqueStmt(s.body)
      requires Blank(cont.Now(), StmtIds(s.body)) && StmtIds(s.body) !! ExprIds(s.step) !! {s.id}
      requires UniqueExpr(s.step) && Visitable(s.step, P, |cont.syms|) && Unnamed(ExprIds(s.step), cont.Now())
      requires s.step.id in ExprIds(s.step) && s.step.id in P.nodeSym && P.nodeSym[s.step.id] < |cont.syms|
      requires Walkable(ListAt(P.phi, s.id), |cont.syms|) && OpndBlank(s.id, cont.Now(), 1)
      requires Defs(s.body, cont.syms, P) + {SymOf(P, s.step.id)} <= Elems(ListAt(P.phi, s.id))
      modifies cont`vers, cont`nodeVer, cont`mu, cont`chi, cont`phi, stack
      ensures Valid(P) && stack.stk == old(stack.stk)
      ensures var head := old(Here());
              var end := After(s.body, P, head);
              && Here() == Point(head.top, end.next + 1)
              && Renamed(s.body, P, cont.Now(), head)
              && RootUsesNamed(s.step, P, cont.Now(), end.top)
              && DefNamed(s.step.id, P, cont.Now(), end.next, s.step.id)
              && OpndSet(s.id, P, cont.Now(), 1, Set(end.top, SymOf(P, s.step.id), end.next))
      ensures OneOpndSet(old(ListAt(cont.phi, s.id)), ListAt(cont.phi, s.id), 1)
      ensures ChangedOnly(old(cont.Now()), cont.Now(), StmtIds(s.body) + (ExprIds(s.step) + {s.id}))
      decreases s.body, 2
    {
      hide NoDup, Numbered, TopOf, FitsAt, Grown, ChangedOnly, SameOn, AllVersions, NoteAt, Blank, Planned, Walkable,
           OpndSet, OpndBlank, OneOpndSet, Marked, Unnamed, UniqueStmt, UniqueExpr, Visitable, DefNamed,
           RootUsesNamed, PhiSyms, Elems, StmtIds, ExprIds, After, Renamed, Defs, Set;
      var id := s.id;
      ghost var V5, t4, head, ids := cont.Now(), stack.stk, Here(), StmtIds(s.body);
      PushMark(id, P);
      ghost var tm := stack.stk;
      VisitStmt(s.body, P);
      ghost var V6, t6 := cont.Now(), stack.stk;
      Disjoint(V5, V6, ids, ExprIds(s.step));
      UnnamedFrame(ExprIds(s.step), V5, V6);
      SameList(V5, V6, ids, id);
      BlankListed(id, V5, V6, 1);
      CloseLoop(s, P);
      GrownTrans(tm, t6, stack.stk, Defs(s.body, cont.syms, P), {SymOf(P, s.step.id)});
      PopMark(id, t4, Defs(s.body, cont.syms, P) + {SymOf(P, s.step.id)}, P);
      ChangedTrans(V5, V6, cont.Now(), ids, ExprIds(s.step) + {id});
      Disjoint(V6, cont.Now(), ExprIds(s.step) + {id}, ids);
      RenamedFrame(s.body, P, V6, cont.Now(), head);
    }

    method HandleDoLoop(s: Stmt, ghost P: Plan)
      requires s.Loop?
      requires Valid(P) && Planned(s, cont.syms, P) && UniqueStmt(s) && Blank(cont.Now(), StmtIds(s))
      modifies cont`vers, cont`nodeVer, cont`mu, cont`chi, cont`phi, stack
      ensures Valid(P) && Renamed(s, P, cont.Now(), old(Here()))
      ensures Here() == After(s, P, old(Here()))
      ensures Grown(old(stack.stk), stack.stk, Defs(s, cont.syms, P))
      ensures stack.stk == StacksAfter(s, P, old(Here()), old(stack.stk))
      ensures ChangedOnly(old(cont.Now()), cont.Now(), StmtIds(s))
      decreases s, 0
    {
      hide NoDup, Numbered, TopOf, TopsOf, FitsAt, Grown, ChangedOnly, SameOn, AllVersions, NoteAt, Blank, Planned,
           Walkable, OpndSet, OpndBlank, OneOpndSet, ResultsSet, Unnamed, UniqueStmt, UsesNamed, Visitable,
           AllHaveTop, PhisNamed, HasVer, DefNamed, RootUsesNamed, PhiSyms, Set, AtHeader, Elems, Defs, NoBareRoots,
           UniqueExpr, PushOne, PushEach;
      var id := s.id;
      ghost var V0, at := cont.Now(), Here();
      ghost var iv, ci := SymOf(P, s.init.id), ExprIds(s.init) + {s.id};
      LoopParts(s, cont.syms, P, V0);
      EnterLoop(s, P);
      ghost var V4 := cont.Now();
      BlankFrame(V0, V4, ci, StmtIds(s.body));
      Disjoint(V0, V4, ci, ExprIds(s.cmp));
      UnnamedFrame(ExprIds(s.cmp), V0, V4);
      Disjoint(V0, V4, ci, ExprIds(s.step));
      UnnamedFrame(ExprIds(s.step), V0, V4);
      VisitExpr(s.cmp, P);
      ghost var V5 := cont.Now();
      BlankFrame(V4, V5, ExprIds(s.cmp), StmtIds(s.body));
      Disjoint(V4, V5, ExprIds(s.cmp), ExprIds(s.step));
      UnnamedFrame(ExprIds(s.step), V4, V5);
      SameList(V4, V5, ExprIds(s.cmp), id);
      BlankListed(id, V4, V5, 1);
      HandleBody(s, P);
      ghost var V9 := cont.Now();
      LoopFrames(s, P, V0, V4, V5, V9, at);
      LoopOpnds(s, P, V4, V5, V9, Set(at.top, iv, at.next), AtBackEdge(s, P, at).top, at.next + 1);
    }

    /** The chis of the entry, the formals, the body. */
    method HandleFuncEntry(f: Func, ghost P: Plan)
      requires Valid(P) && FuncPlanned(f, cont.syms, P) && WellFormed(f)
      requires Blank(cont.Now(), FormalIds(f.formals) + StmtIds(f.body))
      requires Here() == ZeroPoint(|cont.syms|)
      modifies cont`vers, cont`nodeVer, cont`mu, cont`chi, cont`phi, stack
      ensures Valid(P) && FuncRenamed(f, P, cont.Now(), |cont.syms|)
      ensures Here() == After(f.body, P, BodyPoint(f, P, |cont.syms|))
      ensures exists d :: Grown(old(stack.stk), stack.stk, d)
      ensures old(cont.vers) <= cont.vers
    {
      hide NoDup, Numbered, TopOf, TopsOf, FitsAt, Grown, ChangedOnly, SameOn, AllVersions, NoteAt, Blank, Planned,
           Walkable, Unnamed, UniqueStmt, AllHaveTop, HasVer, PushAll, FormalSyms, Elems, ChisNamed, Renamed, After;
      ghost var V0, t0, ids := cont.Now(), stack.stk, FormalIds(f.formals);
      EntryWalkable(f, cont.syms, P);
      RenameChiList(f.id, P);
      ghost var V1, t1, at := cont.Now(), stack.stk, Here();
      ghost var chis := Elems(ListAt(P.chi, f.id));
      BlankPart(V0, ids + StmtIds(f.body), StmtIds(f.body));
      BlankFrame(V0, V1, {f.id}, StmtIds(f.body));
      FormalUses(f, P);
      ghost var V2 := cont.Now();
      BlankFrame(V1, V2, ids, StmtIds(f.body));
      VisitStmt(f.body, P);
      GrownTrans(t0, t1, stack.stk, chis, Defs(f.body, cont.syms, P));
      EntryFrames(f, P, V1, V2, cont.Now(), at.top, |cont.syms|);
      VersGrow(V0, V1, {f.id});
      VersGrow(V1, V2, ids);
      VersGrow(V2, cont.Now(), StmtIds(f.body));
    }

    /** Every formal node is annotated with the current version of its symbol. */
    method FormalUses(f: Func, ghost P: Plan)
      requires Valid(P) && WellFormed(f) && FormalsPlanned(f.formals, cont.syms, P.nodeSym)
      modifies cont`nodeVer
      ensures Valid(P) && ChangedOnly(old(cont.Now()), cont.Now(), FormalIds(f.formals))
      ensures forall g :: g in f.formals ==> UseNamed(g.id, P, cont.Now(), Here().top)
    {
      hide Numbered, TopOf, TopsOf, FitsAt, NoteAt, AllHaveTop, UniqueStmt, ChangedOnly, StmtIds;
      ghost var V0, ids := cont.Now(), FormalIds(f.formals);
      ChangedNothing(V0, ids);
      var i := 0;
      while i < |f.formals|
        invariant 0 <= i <= |f.formals| && Valid(P)
        invariant ChangedOnly(V0, cont.Now(), ids)
        invariant forall j :: 0 <= j < i ==> UseNamed(f.formals[j].id, P, cont.Now(), Here().top)
      {
        ghost var V := cont.Now();
        HandleUse(f.formals[i].id, P);
        assert f.formals[i].id in ids;
        ChangedTrans(V0, V, cont.Now(), ids, {f.formals[i].id});
        assert ids + {f.formals[i].id} == ids;
        forall j | 0 <= j < i ensures UseNamed(f.formals[j].id, P, cont.Now(), Here().top) {
          OtherUse(f.formals[j].id, f.formals[i].id, P, V, cont.Now(), Here().top);
        }
        i := i + 1;
      }
    }

    /** Starts the stacks: zero versions under the mark of the entry. */
    method Initialize(node: nat, ghost P: Plan)
      requires stack.lastVer == [] && stack.stk == []
      requires cont.nodeSym == P.nodeSym && Fits(P, cont.Now())
      requires |cont.vers| == |cont.syms|
      requires forall i :: 0 <= i < |cont.syms| ==> cont.syms[i].zeroVer == i && cont.vers[i] == Ver(i, None, Unknown)
      modifies stack
      ensures Valid(P) && Here() == ZeroPoint(|cont.syms|)
      ensures stack.stk == Initial(ZeroPoint(|cont.syms|).top, node)
    {
      hide TopOf, FitsAt;
      var zeros := seq(|cont.syms|, i requires 0 <= i < |cont.syms| reads cont => cont.syms[i].zeroVer);
      assert zeros == ZeroPoint(|cont.syms|).top;
      stack.Initialize(zeros, node);
      assert stack.stk == Initial(zeros, node);
      InitialTops(zeros, node);
    }

    /** Ends the traversal: nothing but the zero versions is left on the stacks. */
    method Finalize(node: nat, ghost P: Plan)
      requires Valid(P) && forall i :: 0 <= i < |cont.syms| ==> cont.syms[i].zeroVer == i
      requires exists d :: Grown(Initial(ZeroPoint(|cont.syms|).top, node), stack.stk, d)
      modifies stack`stk
      ensures |stack.stk| == |cont.syms| && forall i :: 0 <= i < |cont.syms| ==> stack.stk[i] == [Version(i)]
    {
      var zeros := seq(|cont.syms|, i requires 0 <= i < |cont.syms| reads cont => cont.syms[i].zeroVer);
      assert zeros == ZeroPoint(|cont.syms|).top;
      stack.Finalize(zeros, node);
    }
  }
}
