/**
  Every version has one definer, and every use names a version that is defined
  on all ways to the use.  `Spine` collects the versions a statement defines
  whichever way it is executed: what it defines inside a branch or a loop body
  is not among them.
 */
module Dominance {
  import opened Basics
  import opened Ir
  import opened SsaTables
  import opened Plans

  // ----- dominance -----------------------------------------------------------------

  function Numbers(from: nat, count: nat): (r: set<nat>)
    ensures forall n: nat :: n in r <==> from <= n < from + count
  {
    if count == 0 then {} else Numbers(from, count - 1) + {from + count - 1}
  }

  function Spine(s: Stmt, P: Plan, at: Point): set<nat> {
    match s
    case Skip => {}
    case Seq(a, b) => Spine(a, P, at) + Spine(b, P, After(a, P, at))
    case Store(id, _, _) => Numbers(at.next, 1 + |ListAt(P.chi, id)|)
    case StoreAt(id, _, _, _) => Numbers(at.next, 1 + |ListAt(P.chi, id)|)
    case Call(id, _, _, ret) => if ret.Some? then Numbers(at.next, 1 + |ListAt(P.chi, id)|) else {}
    case Retv(_, _, _) => {}
    case If(id, _, a, b) =>
      Numbers(After(b, P, Point(at.top, After(a, P, at).next)).next, |ListAt(P.phi, id)|)
    case Loop(id, _, _, _, _, _) => Numbers(at.next, 1 + |ListAt(P.phi, id)|)
  }

  ghost predicate UseWithin(id: nat, V: View, avail: set<nat>) {
    id in V.nodeVer && V.nodeVer[id] in avail
  }

  ghost predicate UsesWithin(e: Expr, V: View, avail: set<nat>) {
    match e
    case Leaf(_, _) => true
    case Node(_, _, l, r) => UsesWithin(l, V, avail) && UsesWithin(r, V, avail)
    case Load(id, _) => UseWithin(id, V, avail)
    case LoadAt(id, _, sub) => UsesWithin(sub, V, avail) && UseWithin(id, V, avail)
    case TableAt(_, _, _) => true
  }

  /** As `UsesWithin`, below the root of an init or step expression. */
  ghost predicate RootUsesWithin(e: Expr, V: View, avail: set<nat>) {
    match e
    case Load(_, _) => true
    case LoadAt(_, _, sub) => UsesWithin(sub, V, avail)
    case _ => UsesWithin(e, V, avail)
  }

  ghost predicate ChisWithin(id: nat, V: View, avail: set<nat>) {
    forall c :: c in ListAt(V.chi, id) ==> c.opnd.Some? && c.opnd.value in avail
  }

  ghost predicate MusWithin(id: nat, V: View, avail: set<nat>) {
    forall m :: m in ListAt(V.mu, id) ==> m.opnd.Some? && m.opnd.value in avail
  }

  /** Operand 0 is available where the first edge ends, operand 1 where the second one does. */
  ghost predicate PhisWithin(id: nat, V: View, left: set<nat>, right: set<nat>) {
    forall p :: p in ListAt(V.phi, id) ==>
      && |p.opnd| == 2 && p.opnd[0].Some? && p.opnd[0].value in left
      && p.opnd[1].Some? && p.opnd[1].value in right
  }

  /** Every use in `s` names a version of `avail` or one defined on all ways from the start of `s` to the use. */
  ghost predicate Dominated(s: Stmt, P: Plan, V: View, at: Point, avail: set<nat>) {
    match s
    case Skip => true
    case Seq(a, b) => Dominated(a, P, V, at, avail) && Dominated(b, P, V, After(a, P, at), avail + Spine(a, P, at))
    case Store(id, _, rhs) => UsesWithin(rhs, V, avail) && ChisWithin(id, V, avail)
    case StoreAt(id, _, sub, rhs) =>
      UsesWithin(rhs, V, avail) && UsesWithin(sub, V, avail) && ChisWithin(id, V, avail)
    case Call(id, _, args, ret) => UsesWithin(args, V, avail) && (ret.Some? ==> ChisWithin(id, V, avail))
    case Retv(id, kid, _) => UseWithin(kid, V, avail) && MusWithin(id, V, avail)
    case If(id, c, a, b) =>
      var atb := Point(at.top, After(a, P, at).next);
      && UsesWithin(c, V, avail)
      && Dominated(a, P, V, at, avail) && Dominated(b, P, V, atb, avail)
      && PhisWithin(id, V, avail + Spine(a, P, at), avail + Spine(b, P, atb))
    case Loop(id, _, i, c, st, b) =>
      var head := AtHeader(s, P, at);
      var within := avail + Spine(s, P, at);
      var end := within + Spine(b, P, head);
      && RootUsesWithin(i, V, avail)
      && UsesWithin(c, V, within)
      && Dominated(b, P, V, head, within)
      && RootUsesWithin(st, V, end)
      && PhisWithin(id, V, avail + {at.next}, end + {After(b, P, head).next})
  }

  ghost predicate AllIn(top: seq<nat>, avail: set<nat>) {
    forall i :: 0 <= i < |top| ==> top[i] in avail
  }

  lemma {:induction false} PushAllWithin(syms: seq<nat>, top: seq<nat>, next: nat, avail: set<nat>)
    requires AllIn(top, avail)
    ensures AllIn(PushAll(syms, top, next), avail + Numbers(next, |syms|))
  {
    if syms != [] {
      PushAllWithin(syms[..|syms| - 1], top, next, avail);
    }
  }

  /** What is current behind a statement was current before it or lies on its spine. */
  lemma {:induction false} SpineCurrent(s: Stmt, P: Plan, at: Point, avail: set<nat>)
    requires AllIn(at.top, avail)
    ensures AllIn(After(s, P, at).top, avail + Spine(s, P, at))
    decreases s
  {
    match s
    case Seq(a, b) =>
      SpineCurrent(a, P, at, avail);
      SpineCurrent(b, P, After(a, P, at), avail + Spine(a, P, at));
    case Store(id, _, _) => DefCurrent(id, P, at, avail);
    case StoreAt(id, _, _, _) => DefCurrent(id, P, at, avail);
    case Call(id, _, _, _) => DefCurrent(id, P, at, avail);
    case If(id, _, a, b) =>
      PushAllWithin(ListAt(P.phi, id), at.top, After(b, P, Point(at.top, After(a, P, at).next)).next, avail);
    case Loop(id, _, i, _, _, _) => HeaderCurrent(s, P, at, avail);
    case _ =>
  }

  lemma DefCurrent(id: nat, P: Plan, at: Point, avail: set<nat>)
    requires AllIn(at.top, avail)
    ensures AllIn(AfterDef(id, P, at).top, avail + Numbers(at.next, 1 + |ListAt(P.chi, id)|))
  {
    PushAllWithin(ListAt(P.chi, id), Set(at.top, SymOf(P, id), at.next), at.next + 1, avail + {at.next});
  }

  lemma HeaderCurrent(s: Stmt, P: Plan, at: Point, avail: set<nat>)
    requires s.Loop? && AllIn(at.top, avail)
    ensures AllIn(AtHeader(s, P, at).top, avail + Spine(s, P, at))
  {
    PushAllWithin(ListAt(P.phi, s.id), Set(at.top, SymOf(P, s.init.id), at.next), at.next + 1, avail + {at.next});
  }

  lemma {:induction false} NamedWithin(e: Expr, P: Plan, V: View, top: seq<nat>, avail: set<nat>)
    requires UsesNamed(e, P, V, top) && AllIn(top, avail)
    ensures UsesWithin(e, V, avail)
  {
    match e
    case Node(_, _, l, r) =>
      NamedWithin(l, P, V, top, avail);
      NamedWithin(r, P, V, top, avail);
    case LoadAt(_, _, sub) => NamedWithin(sub, P, V, top, avail);
    case _ =>
  }

  lemma RootNamedWithin(e: Expr, P: Plan, V: View, top: seq<nat>, avail: set<nat>)
    requires RootUsesNamed(e, P, V, top) && AllIn(top, avail)
    ensures RootUsesWithin(e, V, avail)
  {
    match e
    case Load(_, _) =>
    case LoadAt(_, _, sub) => NamedWithin(sub, P, V, top, avail);
    case _ => NamedWithin(e, P, V, top, avail);
  }

  /** A chi reads the version before its statement: its symbol is not the one stored to. */
  lemma ChisNamedWithin(id: nat, d: Place, syms: seq<Sym>, P: Plan, V: View, at: Point, avail: set<nat>)
    requires StoreNamed(id, P, V, at) && DefPlanned(id, d, syms, P) && AllIn(at.top, avail)
    ensures ChisWithin(id, V, avail)
  {
    var list := ListAt(V.chi, id);
    forall k | 0 <= k < |list| ensures list[k].opnd.Some? && list[k].opnd.value in avail {
      assert ChiSyms(list)[k] in Elems(ListAt(P.chi, id));
      assert list[k].sym != SymOf(P, id);
    }
  }

  lemma PhisNamedWithin(id: nat, P: Plan, V: View, left: seq<nat>, right: seq<nat>, next: nat, l: set<nat>, r: set<nat>)
    requires PhisNamed(id, P, V, left, right, next) && AllIn(left, l) && AllIn(right, r)
    ensures PhisWithin(id, V, l, r)
  {
  }

  /** After renaming every use is dominated by the definition of its version. */
  lemma {:induction false} UsesDominated(s: Stmt, syms: seq<Sym>, P: Plan, V: View, at: Point, avail: set<nat>)
    requires Renamed(s, P, V, at) && MuChiPlanned(s, syms, P) && AllIn(at.top, avail)
    ensures Dominated(s, P, V, at, avail)
    decreases s
  {
    match s
    case Skip =>
    case Seq(a, b) =>
      UsesDominated(a, syms, P, V, at, avail);
      SpineCurrent(a, P, at, avail);
      UsesDominated(b, syms, P, V, After(a, P, at), avail + Spine(a, P, at));
    case Store(id, p, rhs) =>
      NamedWithin(rhs, P, V, at.top, avail);
      ChisNamedWithin(id, p, syms, P, V, at, avail);
    case StoreAt(id, v, sub, rhs) =>
      NamedWithin(rhs, P, V, at.top, avail);
      NamedWithin(sub, P, V, at.top, avail);
      ChisNamedWithin(id, Whole(v), syms, P, V, at, avail);
    case Call(id, _, args, ret) =>
      NamedWithin(args, P, V, at.top, avail);
      if ret.Some? {
        ChisNamedWithin(id, Whole(ret.value), syms, P, V, at, avail);
      }
    case Retv(_, _, _) =>
    case If(id, c, a, b) =>
      var pa := After(a, P, at);
      var atb := Point(at.top, pa.next);
      NamedWithin(c, P, V, at.top, avail);
      UsesDominated(a, syms, P, V, at, avail);
      UsesDominated(b, syms, P, V, atb, avail);
      SpineCurrent(a, P, at, avail);
      SpineCurrent(b, P, atb, avail);
      var pb := After(b, P, atb);
      PhisNamedWithin(id, P, V, pa.top, pb.top, pb.next, avail + Spine(a, P, at), avail + Spine(b, P, atb));
    case Loop(_, _, _, _, _, _) => LoopDominated(s, syms, P, V, at, avail);
  }

  lemma {:induction false} LoopDominated(s: Stmt, syms: seq<Sym>, P: Plan, V: View, at: Point, avail: set<nat>)
    requires s.Loop? && Renamed(s, P, V, at) && MuChiPlanned(s, syms, P) && AllIn(at.top, avail)
    ensures Dominated(s, P, V, at, avail)
    decreases s, 0
  {
    hide PhisNamed, DefNamed;
    var head := AtHeader(s, P, at);
    var within := avail + Spine(s, P, at);
    var end := within + Spine(s.body, P, head);
    RootNamedWithin(s.init, P, V, at.top, avail);
    HeaderCurrent(s, P, at, avail);
    NamedWithin(s.cmp, P, V, head.top, within);
    UsesDominated(s.body, syms, P, V, head, within);
    SpineCurrent(s.body, P, head, within);
    RootNamedWithin(s.step, P, V, After(s.body, P, head).top, end);
    PhisNamedWithin(s.id, P, V, Set(at.top, SymOf(P, s.init.id), at.next), AtBackEdge(s, P, at).top, at.next + 1,
                    avail + {at.next}, end + {After(s.body, P, head).next});
  }

  /** A function body starts with the zero versions and the versions of the entry chis. */
  lemma FuncDominated(f: Func, syms: seq<Sym>, P: Plan, V: View)
    requires FuncPlanned(f, syms, P) && FuncRenamed(f, P, V, |syms|)
    ensures var at := BodyPoint(f, P, |syms|); Dominated(f.body, P, V, at, Numbers(0, at.next))
  {
    var at := BodyPoint(f, P, |syms|);
    PushAllBelow(ListAt(P.chi, f.id), ZeroPoint(|syms|).top, |syms|);
    UsesDominated(f.body, syms, P, V, at, Numbers(0, at.next));
  }

  // ----- single definition -------------------------------------------------------------

  function ChiDefiners(id: nat, n: nat): seq<Def> {
    seq(n, k requires 0 <= k < n => ByChi(id, k))
  }

  function PhiDefiners(id: nat, n: nat): seq<Def> {
    seq(n, k requires 0 <= k < n => ByPhi(id, k))
  }

  /** What defines versions in `s`, in the order of the traversal. */
  function Definers(s: Stmt, P: Plan): seq<Def> {
    match s
    case Skip => []
    case Seq(a, b) => Definers(a, P) + Definers(b, P)
    case Store(id, _, _) => [ByStmt(id)] + ChiDefiners(id, |ListAt(P.chi, id)|)
    case StoreAt(id, _, _, _) => [ByStmt(id)] + ChiDefiners(id, |ListAt(P.chi, id)|)
    case Call(id, _, _, ret) => if ret.Some? then [ByStmt(id)] + ChiDefiners(id, |ListAt(P.chi, id)|) else []
    case Retv(_, _, _) => []
    case If(id, _, a, b) => Definers(a, P) + Definers(b, P) + PhiDefiners(id, |ListAt(P.phi, id)|)
    case Loop(id, _, i, _, st, b) =>
      [ByStmt(i.id)] + PhiDefiners(id, |ListAt(P.phi, id)|) + Definers(b, P) + [ByStmt(st.id)]
  }

  /** Versions `from`, `from + 1`, ... are defined by the definers of the list, one after the other. */
  ghost predicate DefinedBy(V: View, from: nat, list: seq<Def>) {
    && from + |list| <= |V.vers|
    && forall w :: from <= w < from + |list| ==> V.vers[w].number.Some? && V.vers[w].def == list[w - from]
  }

  lemma NoneDefined(V: View, from: nat)
    requires from <= |V.vers|
    ensures DefinedBy(V, from, [])
  {
  }

  lemma StmtDefined(V: View, ver: nat, node: nat)
    requires ver < |V.vers| && V.vers[ver].number.Some? && V.vers[ver].def == ByStmt(node)
    ensures DefinedBy(V, ver, [ByStmt(node)])
  {
  }

  lemma DefinedJoin(V: View, from: nat, a: seq<Def>, b: seq<Def>)
    requires DefinedBy(V, from, a) && (b == [] || DefinedBy(V, from + |a|, b))
    ensures DefinedBy(V, from, a + b) && from + |a + b| <= |V.vers|
  {
  }

  lemma ChisDefined(id: nat, P: Plan, V: View, top: seq<nat>, next: nat)
    requires ChisNamed(id, P, V, top, next) && next <= |V.vers|
    ensures DefinedBy(V, next, ChiDefiners(id, |ListAt(P.chi, id)|))
    ensures next + |ChiDefiners(id, |ListAt(P.chi, id)|)| <= |V.vers|
  {
    var list := ListAt(V.chi, id);
    assert |list| == |ListAt(P.chi, id)|;
    forall w | next <= w < next + |list| ensures w < |V.vers| && V.vers[w].number.Some? &&
         V.vers[w].def == ByChi(id, w - next) {
      assert HasVer(V, next + (w - next), list[w - next].sym, ByChi(id, w - next));
    }
    if |list| > 0 {
      assert HasVer(V, next + (|list| - 1), list[|list| - 1].sym, ByChi(id, |list| - 1));
    }
  }

  lemma StoreDefined(id: nat, P: Plan, V: View, at: Point)
    requires StoreNamed(id, P, V, at)
    ensures DefinedBy(V, at.next, [ByStmt(id)] + ChiDefiners(id, |ListAt(P.chi, id)|))
    ensures at.next + 1 + |ListAt(P.chi, id)| <= |V.vers|
  {
    hide ChisNamed, DefinedBy, NoDup;
    ChisDefined(id, P, V, Set(at.top, SymOf(P, id), at.next), at.next + 1);
    StmtDefined(V, at.next, id);
    DefinedJoin(V, at.next, [ByStmt(id)], ChiDefiners(id, |ListAt(P.chi, id)|));
  }

  lemma PhisDefined(id: nat, P: Plan, V: View, left: seq<nat>, right: seq<nat>, next: nat)
    requires PhisNamed(id, P, V, left, right, next) && next <= |V.vers|
    ensures DefinedBy(V, next, PhiDefiners(id, |ListAt(P.phi, id)|))
    ensures next + |PhiDefiners(id, |ListAt(P.phi, id)|)| <= |V.vers|
  {
    var list := ListAt(V.phi, id);
    assert |list| == |ListAt(P.phi, id)|;
    forall w | next <= w < next + |list| ensures w < |V.vers| && V.vers[w].number.Some? &&
         V.vers[w].def == ByPhi(id, w - next) {
      assert HasVer(V, next + (w - next), list[w - next].sym, ByPhi(id, w - next));
    }
    if |list| > 0 {
      assert HasVer(V, next + (|list| - 1), list[|list| - 1].sym, ByPhi(id, |list| - 1));
    }
  }

  /** Renaming hands out consecutive versions: the definers of a statement, in order, define exactly these. */
  lemma {:induction false} VersionsDefined(s: Stmt, P: Plan, V: View, at: Point)
    requires Renamed(s, P, V, at) && at.next <= |V.vers|
    ensures After(s, P, at).next == at.next + |Definers(s, P)| <= |V.vers|
    ensures DefinedBy(V, at.next, Definers(s, P))
    decreases s
  {
    hide DefinedBy, PhisNamed, StoreNamed, UsesNamed;
    match s
    case Skip => NoneDefined(V, at.next);
    case Seq(a, b) =>
      VersionsDefined(a, P, V, at);
      VersionsDefined(b, P, V, After(a, P, at));
      DefinedJoin(V, at.next, Definers(a, P), Definers(b, P));
    case Store(id, _, _) => StoreDefined(id, P, V, at);
    case StoreAt(id, _, _, _) => StoreDefined(id, P, V, at);
    case Call(id, _, _, ret) =>
      if ret.Some? {
        StoreDefined(id, P, V, at);
      } else {
        NoneDefined(V, at.next);
      }
    case Retv(_, _, _) => NoneDefined(V, at.next);
    case If(_, _, _, _) => IfVersions(s, P, V, at);
    case Loop(_, _, _, _, _, _) => LoopVersions(s, P, V, at);
  }

  lemma {:induction false} IfVersions(s: Stmt, P: Plan, V: View, at: Point)
    requires s.If? && Renamed(s, P, V, at) && at.next <= |V.vers|
    ensures After(s, P, at).next == at.next + |Definers(s, P)| <= |V.vers|
    ensures DefinedBy(V, at.next, Definers(s, P))
    decreases s, 0
  {
    hide DefinedBy, PhisNamed, UsesNamed;
    match s
    case If(id, _, a, b) =>
      var pa := After(a, P, at);
      var atb := Point(at.top, pa.next);
      var pb := After(b, P, atb);
      VersionsDefined(a, P, V, at);
      VersionsDefined(b, P, V, atb);
      PhisDefined(id, P, V, pa.top, pb.top, pb.next);
      DefinedJoin(V, at.next, Definers(a, P), Definers(b, P));
      DefinedJoin(V, at.next, Definers(a, P) + Definers(b, P), PhiDefiners(id, |ListAt(P.phi, id)|));
  }

  lemma {:induction false} LoopVersions(s: Stmt, P: Plan, V: View, at: Point)
    requires s.Loop? && Renamed(s, P, V, at) && at.next <= |V.vers|
    ensures After(s, P, at).next == at.next + |Definers(s, P)| <= |V.vers|
    ensures DefinedBy(V, at.next, Definers(s, P))
    decreases s, 0
  {
    hide DefinedBy, PhisNamed, UsesNamed, RootUsesNamed;
    match s
    case Loop(id, _, i, _, st, b) =>
      var head := AtHeader(s, P, at);
      PhisDefined(id, P, V, Set(at.top, SymOf(P, i.id), at.next), AtBackEdge(s, P, at).top, at.next + 1);
      var phis := PhiDefiners(id, |ListAt(P.phi, id)|);
      VersionsDefined(b, P, V, head);
      StmtDefined(V, at.next, i.id);
      StmtDefined(V, After(b, P, head).next, st.id);
      DefinedJoin(V, at.next, [ByStmt(i.id)], phis);
      DefinedJoin(V, at.next, [ByStmt(i.id)] + phis, Definers(b, P));
      DefinedJoin(V, at.next, [ByStmt(i.id)] + phis + Definers(b, P), [ByStmt(st.id)]);
  }

  function NodeOf(d: Def): nat {
    match d
    case Unknown => 0
    case ByStmt(node) => node
    case ByPhi(scf, _) => scf
    case ByChi(node, _) => node
  }

  ghost predicate DistinctIn(list: seq<Def>, ids: set<nat>) {
    NoDup(list) && forall d :: d in list ==> NodeOf(d) in ids && !d.Unknown?
  }

  lemma DistinctJoin(a: seq<Def>, b: seq<Def>, ids: set<nat>, more: set<nat>)
    requires DistinctIn(a, ids) && DistinctIn(b, more)
    requires forall x, y :: x in a && y in b ==> x != y
    ensures DistinctIn(a + b, ids + more)
  {
    var c := a + b;
    forall i, j | 0 <= i < j < |c| ensures c[i] != c[j] {
      assert i < |a| ==> c[i] in a;
      assert j >= |a| ==> c[j] in b;
      if i >= |a| {
        assert c[i] == b[i - |a|] && c[j] == b[j - |a|];
      }
    }
  }

  lemma RootId(e: Expr)
    ensures e.id in ExprIds(e)
  {
  }

  /** No definer is listed twice: in a tree of distinct nodes each version has a definer of its own. */
  lemma {:induction false} DefinersDistinct(s: Stmt, P: Plan)
    requires UniqueStmt(s)
    ensures DistinctIn(Definers(s, P), StmtIds(s))
    decreases s
  {
    match s
    case Skip =>
    case Seq(a, b) =>
      DefinersDistinct(a, P);
      DefinersDistinct(b, P);
      DistinctJoin(Definers(a, P), Definers(b, P), StmtIds(a), StmtIds(b));
    case Store(id, _, _) => StoreDistinct(id, |ListAt(P.chi, id)|);
    case StoreAt(id, _, _, _) => StoreDistinct(id, |ListAt(P.chi, id)|);
    case Call(id, _, _, _) => StoreDistinct(id, |ListAt(P.chi, id)|);
    case Retv(_, _, _) =>
    case If(id, _, a, b) =>
      var phis := PhiDefiners(id, |ListAt(P.phi, id)|);
      DefinersDistinct(a, P);
      DefinersDistinct(b, P);
      DistinctJoin(Definers(a, P), Definers(b, P), StmtIds(a), StmtIds(b));
      DistinctJoin(Definers(a, P) + Definers(b, P), phis, StmtIds(a) + StmtIds(b), {id});
    case Loop(id, _, i, _, st, b) =>
      RootId(i);
      RootId(st);
      var phis := PhiDefiners(id, |ListAt(P.phi, id)|);
      DefinersDistinct(b, P);
      DistinctJoin([ByStmt(i.id)], phis, {i.id}, {id});
      DistinctJoin([ByStmt(i.id)] + phis, Definers(b, P), {i.id} + {id}, StmtIds(b));
      DistinctJoin([ByStmt(i.id)] + phis + Definers(b, P), [ByStmt(st.id)], {i.id} + {id} + StmtIds(b), {st.id});
  }

  lemma StoreDistinct(id: nat, n: nat)
    ensures DistinctIn([ByStmt(id)] + ChiDefiners(id, n), {id})
  {
    DistinctJoin([ByStmt(id)], ChiDefiners(id, n), {id}, {id});
  }

  /** What defines versions in a function: the entry chis, then the body. */
  function FuncDefiners(f: Func, P: Plan): seq<Def> {
    ChiDefiners(f.id, |ListAt(P.chi, f.id)|) + Definers(f.body, P)
  }

  lemma FuncVersions(f: Func, P: Plan, V: View, n: nat)
    requires WellFormed(f) && FuncRenamed(f, P, V, n) && n <= |V.vers|
    ensures DefinedBy(V, n, FuncDefiners(f, P)) && NoDup(FuncDefiners(f, P)) && Unknown !in FuncDefiners(f, P)
    ensures n + |FuncDefiners(f, P)| == After(f.body, P, BodyPoint(f, P, n)).next
  {
    hide DefinedBy;
    var chis := ChiDefiners(f.id, |ListAt(P.chi, f.id)|);
    ChisDefined(f.id, P, V, ZeroPoint(n).top, n);
    VersionsDefined(f.body, P, V, BodyPoint(f, P, n));
    DefinedJoin(V, n, chis, Definers(f.body, P));
    DefinersDistinct(f.body, P);
    DistinctJoin(chis, Definers(f.body, P), {f.id}, StmtIds(f.body));
  }

  /** Version `ver` has one definer, and that one defines no other version of the whole table. */
  ghost predicate DefinedOnce(list: seq<Def>, vers: seq<Ver>, ver: nat)
    requires ver < |vers|
  {
    && !vers[ver].def.Unknown? && vers[ver].number.Some?
    && (exists j :: 0 <= j < |list| && list[j] == vers[ver].def)
    && (forall i, j :: 0 <= i < |list| && 0 <= j < |list| && list[i] == vers[ver].def == list[j] ==> i == j)
    && (forall w :: 0 <= w < |vers| && vers[w].def == vers[ver].def ==> w == ver)
  }

  /** When the table ends where renaming does, each version in it but the zero versions is defined once. */
  lemma OneDefiner(f: Func, P: Plan, V: View, n: nat, ver: nat)
    requires WellFormed(f) && FuncRenamed(f, P, V, n) && n <= |V.vers|
    requires |V.vers| == After(f.body, P, BodyPoint(f, P, n)).next
    requires forall i :: 0 <= i < n ==> V.vers[i].def == Unknown
    requires n <= ver < |V.vers|
    ensures DefinedOnce(FuncDefiners(f, P), V.vers, ver)
  {
    FuncVersions(f, P, V, n);
    hide FuncRenamed, WellFormed, After, BodyPoint;
    var list := FuncDefiners(f, P);
    assert list[ver - n] == V.vers[ver].def && list[ver - n] in list;
    forall w | 0 <= w < |V.vers| && V.vers[w].def == V.vers[ver].def ensures w == ver {
      if w >= n {
        assert list[w - n] == V.vers[w].def;
      }
    }
  }
}
