/** What the first three phases owe the renaming: symbols on nodes, complete mu, chi and phi lists. */
module Plans {
  import opened Basics
  import opened Ir
  import opened SsaTables

  /** Symbols that overlap `d` without being `d`: its parent or its children. */
  ghost predicate Related(syms: seq<Sym>, r: nat, d: nat)
  {
    && r < |syms| && d < |syms| && r != d
    && syms[r].place.v == syms[d].place.v
    && (syms[r].place.ix.NoIndex? || syms[d].place.ix.NoIndex?)
  }

  /** The related symbols that really occur. */
  ghost function Relatives(syms: seq<Sym>, d: nat): set<nat> {
    set r | 0 <= r < |syms| && syms[r].realOcc && Related(syms, r, d)
  }

  /** The variable exposed by a return is exposed with all that really occurs of it. */
  lemma RetvExposes(s: Stmt, syms: seq<Sym>, P: Plan, i: nat)
    requires s.Retv? && MuChiPlanned(s, syms, P)
    ensures i in ListAt(P.mu, s.id) <==> i < |syms| && syms[i].realOcc && syms[i].place.v == s.v
  {
    assert i in ListAt(P.mu, s.id) <==> i in Elems(ListAt(P.mu, s.id));
  }

  /** No two symbols stand for the same place. */
  ghost predicate DistinctPlaces(syms: seq<Sym>) {
    forall i, j :: 0 <= i < j < |syms| ==> syms[i].place != syms[j].place
  }

  ghost predicate IsSym(syms: seq<Sym>, i: nat, p: Place) {
    i < |syms| && syms[i].place == p && syms[i].realOcc
  }

  ghost predicate NodeSymIs(id: nat, p: Place, syms: seq<Sym>, P: Plan) {
    id in P.nodeSym && IsSym(syms, P.nodeSym[id], p)
  }

  ghost predicate ExprPlanned(e: Expr, syms: seq<Sym>, P: Plan) {
    match e
    case Leaf(_, _) => true
    case Node(_, _, l, r) => ExprPlanned(l, syms, P) && ExprPlanned(r, syms, P)
    case Load(id, p) => NodeSymIs(id, p, syms, P)
    case LoadAt(id, v, sub) => ExprPlanned(sub, syms, P) && NodeSymIs(id, Whole(v), syms, P)
    case TableAt(_, _, _) => true
  }

  /** The root of an init or step expression carries the symbol of the induction variable. */
  ghost predicate RootPlanned(e: Expr, iv: Var, syms: seq<Sym>, P: Plan) {
    && NodeSymIs(e.id, Whole(iv), syms, P)
    && match e
       case Load(_, _) => true
       case LoadAt(_, _, sub) => ExprPlanned(sub, syms, P)
       case _ => ExprPlanned(e, syms, P)
  }

  /** A definition: the node carries the symbol of `d`, the chi list has each relative once. */
  ghost predicate DefPlanned(id: nat, d: Place, syms: seq<Sym>, P: Plan) {
    && NodeSymIs(id, d, syms, P)
    && NoDup(ListAt(P.chi, id))
    && Elems(ListAt(P.chi, id)) == Relatives(syms, SymOf(P, id))
  }

  /** Symbols a statement defines at any depth: directly, by chi, or as induction variable. */
  ghost function Defs(s: Stmt, syms: seq<Sym>, P: Plan): set<nat> {
    match s
    case Skip => {}
    case Seq(a, b) => Defs(a, syms, P) + Defs(b, syms, P)
    case Store(id, _, _) => {SymOf(P, id)} + Relatives(syms, SymOf(P, id))
    case StoreAt(id, _, _, _) => {SymOf(P, id)} + Relatives(syms, SymOf(P, id))
    case Call(id, _, _, ret) =>
      if ret.Some? then {SymOf(P, id)} + Relatives(syms, SymOf(P, id)) else {}
    case Retv(_, _, _) => {}
    case If(_, _, a, b) => Defs(a, syms, P) + Defs(b, syms, P)
    case Loop(_, _, i, _, _, b) => {SymOf(P, i.id)} + Defs(b, syms, P)
  }

  /** What the mu/chi phase establishes. */
  ghost predicate MuChiPlanned(s: Stmt, syms: seq<Sym>, P: Plan) {
    match s
    case Skip => true
    case Seq(a, b) => MuChiPlanned(a, syms, P) && MuChiPlanned(b, syms, P)
    case Store(id, p, rhs) => ExprPlanned(rhs, syms, P) && DefPlanned(id, p, syms, P)
    case StoreAt(id, v, sub, rhs) =>
      ExprPlanned(rhs, syms, P) && ExprPlanned(sub, syms, P) && DefPlanned(id, Whole(v), syms, P)
    case Call(id, _, args, ret) =>
      ExprPlanned(args, syms, P) && (ret.Some? ==> DefPlanned(id, Whole(ret.value), syms, P))
    case Retv(id, kid, v) =>
      && NodeSymIs(kid, Whole(v), syms, P)
      && NoDup(ListAt(P.mu, id))
      && Elems(ListAt(P.mu, id)) == {SymOf(P, kid)} + Relatives(syms, SymOf(P, kid))
    case If(_, c, a, b) =>
      ExprPlanned(c, syms, P) && MuChiPlanned(a, syms, P) && MuChiPlanned(b, syms, P)
    case Loop(_, iv, i, c, st, b) =>
      && RootPlanned(i, iv, syms, P) && RootPlanned(st, iv, syms, P)
      && Relatives(syms, SymOf(P, i.id)) == {}
      && ExprPlanned(c, syms, P) && MuChiPlanned(b, syms, P)
  }

  /** What phi insertion establishes: one phi for each symbol defined inside, and no other. */
  ghost predicate PhisPlanned(s: Stmt, syms: seq<Sym>, P: Plan) {
    match s
    case Seq(a, b) => PhisPlanned(a, syms, P) && PhisPlanned(b, syms, P)
    case If(id, _, a, b) =>
      && NoDup(ListAt(P.phi, id)) && Elems(ListAt(P.phi, id)) == Defs(s, syms, P)
      && PhisPlanned(a, syms, P) && PhisPlanned(b, syms, P)
    case Loop(id, _, _, _, _, b) =>
      && NoDup(ListAt(P.phi, id)) && Elems(ListAt(P.phi, id)) == Defs(s, syms, P)
      && PhisPlanned(b, syms, P)
    case _ => true
  }

  ghost predicate Planned(s: Stmt, syms: seq<Sym>, P: Plan) {
    DistinctPlaces(syms) && MuChiPlanned(s, syms, P) && PhisPlanned(s, syms, P)
  }

  // ----- induction variables ------------------------------------------------------

  /** The symbols of whole variables. */
  ghost function SymsOf(syms: seq<Sym>, vars: set<Var>): set<nat> {
    set i | 0 <= i < |syms| && syms[i].place.ix.NoIndex? && syms[i].place.v in vars
  }

  lemma SymsOfBoth(syms: seq<Sym>, a: set<Var>, b: set<Var>)
    ensures SymsOf(syms, a + b) == SymsOf(syms, a) + SymsOf(syms, b)
  {
  }

  /** The root of every init and step carries a marked symbol. */
  ghost predicate RootsMarked(s: Stmt, P: Plan, ivs: set<nat>) {
    match s
    case Seq(a, b) => RootsMarked(a, P, ivs) && RootsMarked(b, P, ivs)
    case If(_, _, a, b) => RootsMarked(a, P, ivs) && RootsMarked(b, P, ivs)
    case Loop(_, _, i, _, st, b) =>
      && i.id in P.nodeSym && P.nodeSym[i.id] in ivs && st.id in P.nodeSym && P.nodeSym[st.id] in ivs
      && RootsMarked(b, P, ivs)
    case _ => true
  }

  lemma {:induction false} RootsOfLoops(s: Stmt, syms: seq<Sym>, P: Plan, vars: set<Var>)
    requires MuChiPlanned(s, syms, P) && LoopVars(s) <= vars
    ensures RootsMarked(s, P, SymsOf(syms, vars))
  {
    match s
    case Seq(a, b) => RootsOfLoops(a, syms, P, vars); RootsOfLoops(b, syms, P, vars);
    case If(_, _, a, b) => RootsOfLoops(a, syms, P, vars); RootsOfLoops(b, syms, P, vars);
    case Loop(_, iv, _, _, _, b) =>
      assert iv in vars;
      RootsOfLoops(b, syms, P, vars);
    case _ =>
  }

  // ----- function entry -------------------------------------------------------

  /** The real symbols of the variables that are formals. */
  ghost function FormalSyms(syms: seq<Sym>, fs: seq<Formal>): set<nat> {
    set i | 0 <= i < |syms| && syms[i].realOcc && exists g :: g in fs && g.v == syms[i].place.v
  }

  ghost predicate FormalsPlanned(fs: seq<Formal>, syms: seq<Sym>, nodeSym: map<nat, nat>) {
    forall g :: g in fs ==>
      g.id in nodeSym && nodeSym[g.id] < |syms| && syms[nodeSym[g.id]].place == Whole(g.v)
  }

  /** Every formal node has its symbol; the entry chis are the real symbols of the formals. */
  ghost predicate EntryPlanned(f: Func, syms: seq<Sym>, P: Plan) {
    && FormalsPlanned(f.formals, syms, P.nodeSym)
    && NoDup(ListAt(P.chi, f.id))
    && Elems(ListAt(P.chi, f.id)) == FormalSyms(syms, f.formals)
  }

  ghost predicate FuncPlanned(f: Func, syms: seq<Sym>, P: Plan) {
    EntryPlanned(f, syms, P) && Planned(f.body, syms, P)
  }

  // ----- how renaming moves the current versions ------------------------------

  lemma {:induction false} PushAllAt(syms: seq<nat>, top: seq<nat>, next: nat)
    requires NoDup(syms)
    ensures forall k :: 0 <= k < |syms| && syms[k] < |top| ==> PushAll(syms, top, next)[syms[k]] == next + k
    ensures forall i :: 0 <= i < |top| && i !in syms ==> PushAll(syms, top, next)[i] == top[i]
  {
    if syms != [] {
      var n := |syms| - 1;
      PushAllAt(syms[..n], top, next);
      forall k | 0 <= k < n && syms[k] < |top|
        ensures PushAll(syms, top, next)[syms[k]] == next + k
      {
        assert syms[..n][k] == syms[k];
      }
    }
  }

  lemma PushAllIn(syms: seq<nat>, top: seq<nat>, next: nat, k: nat)
    requires NoDup(syms) && k < |syms| && syms[k] < |top|
    ensures PushAll(syms, top, next)[syms[k]] == next + k
  {
    PushAllAt(syms, top, next);
  }

  lemma PushAllOut(syms: seq<nat>, top: seq<nat>, next: nat, i: nat)
    requires NoDup(syms) && i < |top| && i !in syms
    ensures PushAll(syms, top, next)[i] == top[i]
  {
    PushAllAt(syms, top, next);
  }

  ghost predicate Below(top: seq<nat>, next: nat) {
    forall i :: 0 <= i < |top| ==> top[i] < next
  }

  lemma {:induction false} PushAllBelow(syms: seq<nat>, top: seq<nat>, next: nat)
    requires Below(top, next)
    ensures Below(PushAll(syms, top, next), next + |syms|)
  {
    if syms != [] {
      PushAllBelow(syms[..|syms| - 1], top, next);
    }
  }

  /** Versions only grow, and every current version is one already handed out. */
  lemma {:induction false} AfterBelow(s: Stmt, P: Plan, at: Point)
    requires Below(at.top, at.next)
    ensures |After(s, P, at).top| == |at.top|
    ensures at.next <= After(s, P, at).next
    ensures Below(After(s, P, at).top, After(s, P, at).next)
    decreases s
  {
    match s
    case Seq(a, b) =>
      AfterBelow(a, P, at);
      AfterBelow(b, P, After(a, P, at));
    case If(id, _, a, b) =>
      AfterBelow(a, P, at);
      var p1 := Point(at.top, After(a, P, at).next);
      AfterBelow(b, P, p1);
      PushAllBelow(ListAt(P.phi, id), at.top, After(b, P, p1).next);
    case Loop(id, _, i, _, st, b) =>
      HeaderBelow(s, P, at);
      AfterBelow(b, P, AtHeader(s, P, at));
    case Store(id, _, _) => DefBelow(id, P, at);
    case StoreAt(id, _, _, _) => DefBelow(id, P, at);
    case Call(id, _, _, _) => DefBelow(id, P, at);
    case _ =>
  }

  lemma DefBelow(id: nat, P: Plan, at: Point)
    requires Below(at.top, at.next)
    ensures Below(AfterDef(id, P, at).top, AfterDef(id, P, at).next)
  {
    PushAllBelow(ListAt(P.chi, id), Set(at.top, SymOf(P, id), at.next), at.next + 1);
  }

  lemma HeaderBelow(s: Stmt, P: Plan, at: Point)
    requires s.Loop? && Below(at.top, at.next)
    ensures Below(AtHeader(s, P, at).top, AtHeader(s, P, at).next)
  {
    PushAllBelow(ListAt(P.phi, s.id), Set(at.top, SymOf(P, s.init.id), at.next), at.next + 1);
  }

  /** A symbol a statement does not define keeps its version through it. */
  lemma {:induction false} UndefinedKept(s: Stmt, syms: seq<Sym>, P: Plan, at: Point, i: nat)
    requires MuChiPlanned(s, syms, P) && PhisPlanned(s, syms, P)
    requires i < |at.top| && i !in Defs(s, syms, P)
    ensures |After(s, P, at).top| == |at.top|
    ensures After(s, P, at).top[i] == at.top[i]
    decreases s
  {
    match s
    case Seq(a, b) =>
      UndefinedKept(a, syms, P, at, i);
      UndefinedKept(b, syms, P, After(a, P, at), i);
    case Store(id, _, _) =>
      assert i !in Elems(ListAt(P.chi, id));
      PushAllAt(ListAt(P.chi, id), Set(at.top, SymOf(P, id), at.next), at.next + 1);
    case StoreAt(id, _, _, _) =>
      assert i !in Elems(ListAt(P.chi, id));
      PushAllAt(ListAt(P.chi, id), Set(at.top, SymOf(P, id), at.next), at.next + 1);
    case Call(id, _, _, ret) =>
      if ret.Some? {
        assert i !in Elems(ListAt(P.chi, id));
        PushAllAt(ListAt(P.chi, id), Set(at.top, SymOf(P, id), at.next), at.next + 1);
      }
    case If(id, _, a, b) =>
      assert i !in Elems(ListAt(P.phi, id));
      PushAllAt(ListAt(P.phi, id), at.top, After(b, P, Point(at.top, After(a, P, at).next)).next);
    case Loop(id, _, init, _, _, _) =>
      assert i !in Elems(ListAt(P.phi, id));
      PushAllAt(ListAt(P.phi, id), Set(at.top, SymOf(P, init.id), at.next), at.next + 1);
    case _ =>
  }

  lemma StepSym(s: Stmt, syms: seq<Sym>, P: Plan)
    requires s.Loop? && Planned(s, syms, P)
    ensures SymOf(P, s.step.id) == SymOf(P, s.init.id)
  {
    assert syms[SymOf(P, s.step.id)].place == syms[SymOf(P, s.init.id)].place;
  }
}
