/**
  The entries of the SSA tables, the plan the first three phases leave behind,
  and the renaming every later phase is measured against.

  `After` is renaming without stacks: it threads the current version of every
  symbol (`top`) and the next free version through a statement.  `Renamed`
  says that the annotations of a statement are the ones this renaming gives.
 */
module SsaTables {
  import opened Basics
  import opened Ir

  // ----- table entries -------------------------------------------------------

  /** A symbol: something that is renamed on its own. */
  datatype Sym = Sym(place: Place, parent: Option<nat>, sibling: Option<nat>, child: Option<nat>,
                     zeroVer: nat, realOcc: bool)

  /** Who defines a version: nobody (the zero version), a node, a phi or a chi. */
  datatype Def = Unknown | ByStmt(node: nat) | ByPhi(scf: nat, pos: nat) | ByChi(node: nat, pos: nat)

  /** `number` is the per-symbol version number; the zero version has none. */
  datatype Ver = Ver(sym: nat, number: Option<nat>, def: Def)

  datatype Mu = Mu(sym: nat, opnd: Option<nat>)

  datatype Chi = Chi(sym: nat, opnd: Option<nat>, res: Option<nat>, defStmt: Option<nat>)

  datatype Phi = Phi(sym: nat, opnd: seq<Option<nat>>, res: Option<nat>, defStmt: Option<nat>)

  function MuSyms(list: seq<Mu>): (r: seq<nat>)
    ensures |r| == |list|
  {
    seq(|list|, i requires 0 <= i < |list| => list[i].sym)
  }

  function ChiSyms(list: seq<Chi>): (r: seq<nat>)
    ensures |r| == |list|
  {
    seq(|list|, i requires 0 <= i < |list| => list[i].sym)
  }

  function PhiSyms(list: seq<Phi>): (r: seq<nat>)
    ensures |r| == |list|
  {
    seq(|list|, i requires 0 <= i < |list| => list[i].sym)
  }

  /** The annotations of the container, as one value. */
  datatype View = View(vers: seq<Ver>, nodeVer: map<nat, nat>,
                       mu: map<nat, seq<Mu>>, chi: map<nat, seq<Chi>>, phi: map<nat, seq<Phi>>)

  /** What symbol a node accesses and the symbols of the mu, chi and phi lists. */
  datatype Plan = Plan(nodeSym: map<nat, nat>, mu: map<nat, seq<nat>>,
                       chi: map<nat, seq<nat>>, phi: map<nat, seq<nat>>)

  function SymOf(P: Plan, id: nat): nat {
    if id in P.nodeSym then P.nodeSym[id] else 0
  }

  // ----- renaming without stacks ---------------------------------------------

  /** Gives the symbols of a list the versions `next`, `next + 1`, ... in order. */
  function PushAll(syms: seq<nat>, top: seq<nat>, next: nat): (r: seq<nat>)
    ensures |r| == |top|
  {
    if syms == [] then top
    else
      var n := |syms| - 1;
      var r := PushAll(syms[..n], top, next);
      if syms[n] < |r| then r[syms[n] := next + n] else r
  }

  function Set(top: seq<nat>, sym: nat, ver: nat): (r: seq<nat>)
    ensures |r| == |top|
  {
    if sym < |top| then top[sym := ver] else top
  }

  datatype Point = Point(top: seq<nat>, next: nat)

  /** A store or call: the direct definition, then the chi list. */
  function AfterDef(id: nat, P: Plan, at: Point): Point {
    var chis := ListAt(P.chi, id);
    Point(PushAll(chis, Set(at.top, SymOf(P, id), at.next), at.next + 1), at.next + 1 + |chis|)
  }

  function AfterPhis(id: nat, P: Plan, at: Point): Point {
    var phis := ListAt(P.phi, id);
    Point(PushAll(phis, at.top, at.next), at.next + |phis|)
  }

  /** A loop up to its header: the induction variable is set, then the phis are. */
  function AtHeader(s: Stmt, P: Plan, at: Point): Point
    requires s.Loop?
  {
    AfterPhis(s.id, P, Point(Set(at.top, SymOf(P, s.init.id), at.next), at.next + 1))
  }

  /** The end of a loop body, after the step has set the induction variable. */
  function AtBackEdge(s: Stmt, P: Plan, at: Point): Point
    requires s.Loop?
    decreases s, 0
  {
    var b := After(s.body, P, AtHeader(s, P, at));
    Point(Set(b.top, SymOf(P, s.step.id), b.next), b.next + 1)
  }

  function After(s: Stmt, P: Plan, at: Point): Point
    decreases s, 1
  {
    match s
    case Skip => at
    case Seq(a, b) => After(b, P, After(a, P, at))
    case Store(id, _, _) => AfterDef(id, P, at)
    case StoreAt(id, _, _, _) => AfterDef(id, P, at)
    case Call(id, _, _, ret) => if ret.Some? then AfterDef(id, P, at) else at
    case Retv(_, _, _) => at
    case If(id, _, a, b) =>
      var n1 := After(a, P, at).next;
      var n2 := After(b, P, Point(at.top, n1)).next;
      AfterPhis(id, P, Point(at.top, n2))
    case Loop(_, _, _, _, _, _) =>
      Point(AtHeader(s, P, at).top, AtBackEdge(s, P, at).next)
  }

  // ----- annotations that agree with it --------------------------------------

  /** Node `id` is annotated with the current version of its symbol. */
  ghost predicate UseNamed(id: nat, P: Plan, V: View, top: seq<nat>) {
    SymOf(P, id) < |top| && id in V.nodeVer && V.nodeVer[id] == top[SymOf(P, id)]
  }

  ghost predicate Unnamed(ids: set<nat>, V: View) {
    forall i :: i in ids ==> i !in V.nodeVer
  }

  ghost predicate UsesNamed(e: Expr, P: Plan, V: View, top: seq<nat>) {
    match e
    case Leaf(_, _) => true
    case Node(_, _, l, r) => UsesNamed(l, P, V, top) && UsesNamed(r, P, V, top)
    case Load(id, _) => UseNamed(id, P, V, top)
    case LoadAt(id, _, sub) => UsesNamed(sub, P, V, top) && UseNamed(id, P, V, top)
    case TableAt(_, _, sub) => Unnamed(ExprIds(sub), V)
  }

  /** As `UsesNamed`, except for the root, which a loop annotates as a definition. */
  ghost predicate RootUsesNamed(e: Expr, P: Plan, V: View, top: seq<nat>) {
    match e
    case Load(_, _) => true
    case LoadAt(_, _, sub) => UsesNamed(sub, P, V, top)
    case _ => UsesNamed(e, P, V, top)
  }

  ghost predicate HasVer(V: View, ver: nat, sym: nat, def: Def) {
    ver < |V.vers| && V.vers[ver].sym == sym && V.vers[ver].number.Some? && V.vers[ver].def == def
  }

  ghost predicate DefNamed(id: nat, P: Plan, V: View, next: nat, stmt: nat) {
    id in V.nodeVer && V.nodeVer[id] == next && HasVer(V, next, SymOf(P, id), ByStmt(stmt))
  }

  /** Chi `k` reads the version before the statement and defines version `next + k`. */
  ghost predicate ChisNamed(id: nat, P: Plan, V: View, top: seq<nat>, next: nat) {
    var list := ListAt(V.chi, id);
    && ChiSyms(list) == ListAt(P.chi, id)
    && forall k :: 0 <= k < |list| ==>
         && list[k].sym < |top|
         && list[k].opnd == Some(top[list[k].sym])
         && list[k].res == Some(next + k)
         && list[k].defStmt == Some(id)
         && HasVer(V, next + k, list[k].sym, ByChi(id, k))
  }

  ghost predicate StoreNamed(id: nat, P: Plan, V: View, at: Point) {
    && DefNamed(id, P, V, at.next, id)
    && ChisNamed(id, P, V, Set(at.top, SymOf(P, id), at.next), at.next + 1)
  }

  /** Phi `k` joins `left` and `right` and defines version `next + k`. */
  ghost predicate PhisNamed(id: nat, P: Plan, V: View, left: seq<nat>, right: seq<nat>, next: nat) {
    var list := ListAt(V.phi, id);
    && PhiSyms(list) == ListAt(P.phi, id)
    && forall k :: 0 <= k < |list| ==>
         && list[k].sym < |left| && list[k].sym < |right|
         && list[k].opnd == [Some(left[list[k].sym]), Some(right[list[k].sym])]
         && list[k].res == Some(next + k)
         && list[k].defStmt == Some(id)
         && HasVer(V, next + k, list[k].sym, ByPhi(id, k))
  }

  ghost predicate MusNamed(id: nat, P: Plan, V: View, top: seq<nat>) {
    var list := ListAt(V.mu, id);
    && MuSyms(list) == ListAt(P.mu, id)
    && forall k :: 0 <= k < |list| ==>
         list[k].sym < |top| && list[k].opnd == Some(top[list[k].sym])
  }

  ghost predicate Renamed(s: Stmt, P: Plan, V: View, at: Point) {
    match s
    case Skip => true
    case Seq(a, b) => Renamed(a, P, V, at) && Renamed(b, P, V, After(a, P, at))
    case Store(id, _, rhs) => UsesNamed(rhs, P, V, at.top) && StoreNamed(id, P, V, at)
    case StoreAt(id, _, sub, rhs) =>
      && UsesNamed(rhs, P, V, at.top) && UsesNamed(sub, P, V, at.top)
      && StoreNamed(id, P, V, at)
    case Call(id, _, args, ret) =>
      UsesNamed(args, P, V, at.top) && (ret.Some? ==> StoreNamed(id, P, V, at))
    case Retv(id, kid, _) => UseNamed(kid, P, V, at.top) && MusNamed(id, P, V, at.top)
    case If(id, c, a, b) =>
      var pa := After(a, P, at);
      var pb := After(b, P, Point(at.top, pa.next));
      && UsesNamed(c, P, V, at.top)
      && Renamed(a, P, V, at)
      && Renamed(b, P, V, Point(at.top, pa.next))
      && PhisNamed(id, P, V, pa.top, pb.top, pb.next)
    case Loop(id, _, i, c, st, b) =>
      var head := AtHeader(s, P, at);
      var end := After(b, P, head);
      && RootUsesNamed(i, P, V, at.top)
      && DefNamed(i.id, P, V, at.next, i.id)
      && PhisNamed(id, P, V, Set(at.top, SymOf(P, i.id), at.next), AtBackEdge(s, P, at).top, at.next + 1)
      && UsesNamed(c, P, V, head.top)
      && Renamed(b, P, V, head)
      && RootUsesNamed(st, P, V, end.top)
      && DefNamed(st.id, P, V, end.next, st.id)
  }

  // ----- functions -----------------------------------------------------------

  /** `n` symbols, each at its zero version. */
  function ZeroPoint(n: nat): Point {
    Point(seq(n, i => i), n)
  }

  /** The point where the body starts: after the chis of the entry. */
  function BodyPoint(f: Func, P: Plan, n: nat): Point {
    var chis := ListAt(P.chi, f.id);
    Point(PushAll(chis, ZeroPoint(n).top, n), n + |chis|)
  }

  ghost predicate FuncRenamed(f: Func, P: Plan, V: View, n: nat) {
    && ChisNamed(f.id, P, V, ZeroPoint(n).top, n)
    && (forall g :: g in f.formals ==> UseNamed(g.id, P, V, BodyPoint(f, P, n).top))
    && Renamed(f.body, P, V, BodyPoint(f, P, n))
  }
}
