/** Annotating some nodes leaves what was established for the others. */
module Frames {
  import opened Basics
  import opened Ir
  import opened SsaTables

  /** Everything annotated on one node. */
  datatype Note = Note(ver: Option<nat>, mu: seq<Mu>, chi: seq<Chi>, phi: seq<Phi>)

  function NoteAt(V: View, i: nat): Note {
    Note(if i in V.nodeVer then Some(V.nodeVer[i]) else None, ListAt(V.mu, i), ListAt(V.chi, i), ListAt(V.phi, i))
  }

  /** Only nodes in `ids` changed, and the version table only grew. */
  ghost predicate ChangedOnly(V: View, V': View, ids: set<nat>) {
    V.vers <= V'.vers && forall i :: i !in ids ==> NoteAt(V', i) == NoteAt(V, i)
  }

  ghost predicate SameOn(V: View, V': View, ids: set<nat>) {
    V.vers <= V'.vers && forall i :: i in ids ==> NoteAt(V', i) == NoteAt(V, i)
  }

  lemma ChangedTrans(V0: View, V1: View, V2: View, a: set<nat>, b: set<nat>)
    requires ChangedOnly(V0, V1, a) && ChangedOnly(V1, V2, b)
    ensures ChangedOnly(V0, V2, a + b)
  {
  }

  lemma Disjoint(V: View, V': View, changed: set<nat>, ids: set<nat>)
    requires ChangedOnly(V, V', changed) && changed !! ids
    ensures SameOn(V, V', ids)
  {
  }

  lemma UnnamedFrame(ids: set<nat>, V: View, V': View)
    requires SameOn(V, V', ids) && Unnamed(ids, V)
    ensures Unnamed(ids, V')
  {
    forall i | i in ids ensures i !in V'.nodeVer {
      assert NoteAt(V', i) == NoteAt(V, i);
    }
  }

  lemma UseFrame(id: nat, P: Plan, V: View, V': View, top: seq<nat>)
    requires NoteAt(V', id) == NoteAt(V, id) && UseNamed(id, P, V, top)
    ensures UseNamed(id, P, V', top)
  {
  }

  lemma {:induction false} UsesFrame(e: Expr, P: Plan, V: View, V': View, top: seq<nat>)
    requires SameOn(V, V', ExprIds(e)) && UsesNamed(e, P, V, top)
    ensures UsesNamed(e, P, V', top)
  {
    match e
    case Node(_, _, l, r) =>
      UsesFrame(l, P, V, V', top);
      UsesFrame(r, P, V, V', top);
    case Load(id, _) => UseFrame(id, P, V, V', top);
    case LoadAt(id, _, sub) =>
      UsesFrame(sub, P, V, V', top);
      UseFrame(id, P, V, V', top);
    case TableAt(_, _, sub) => UnnamedFrame(ExprIds(sub), V, V');
    case _ =>
  }

  /** Annotating the root of an expression as a definition leaves the uses below it. */
  lemma RootFrame(e: Expr, P: Plan, V: View, V': View, top: seq<nat>)
    requires UniqueExpr(e) && UsesNamed(e, P, V, top)
    requires SameOn(V, V', ExprIds(e) - {e.id})
    ensures RootUsesNamed(e, P, V', top)
  {
    match e
    case Node(_, _, l, r) =>
      UsesFrame(l, P, V, V', top);
      UsesFrame(r, P, V, V', top);
    case LoadAt(_, _, sub) => UsesFrame(sub, P, V, V', top);
    case TableAt(_, _, sub) => UnnamedFrame(ExprIds(sub), V, V');
    case _ =>
  }

  lemma RootUsesFrame(e: Expr, P: Plan, V: View, V': View, top: seq<nat>)
    requires SameOn(V, V', ExprIds(e)) && RootUsesNamed(e, P, V, top)
    ensures RootUsesNamed(e, P, V', top)
  {
    match e
    case Load(_, _) =>
    case LoadAt(_, _, sub) => UsesFrame(sub, P, V, V', top);
    case _ => UsesFrame(e, P, V, V', top);
  }

  lemma DefFrame(id: nat, P: Plan, V: View, V': View, next: nat, stmt: nat)
    requires V.vers <= V'.vers && NoteAt(V', id) == NoteAt(V, id) && DefNamed(id, P, V, next, stmt)
    ensures DefNamed(id, P, V', next, stmt)
  {
  }

  lemma ChisFrame(id: nat, P: Plan, V: View, V': View, top: seq<nat>, next: nat)
    requires V.vers <= V'.vers && NoteAt(V', id) == NoteAt(V, id) && ChisNamed(id, P, V, top, next)
    ensures ChisNamed(id, P, V', top, next)
  {
    assert ListAt(V'.chi, id) == ListAt(V.chi, id);
  }

  lemma StoreFrame(id: nat, P: Plan, V: View, V': View, at: Point)
    requires V.vers <= V'.vers && NoteAt(V', id) == NoteAt(V, id) && StoreNamed(id, P, V, at)
    ensures StoreNamed(id, P, V', at)
  {
    DefFrame(id, P, V, V', at.next, id);
    ChisFrame(id, P, V, V', Set(at.top, SymOf(P, id), at.next), at.next + 1);
  }

  lemma PhisFrame(id: nat, P: Plan, V: View, V': View, left: seq<nat>, right: seq<nat>, next: nat)
    requires V.vers <= V'.vers && NoteAt(V', id) == NoteAt(V, id) && PhisNamed(id, P, V, left, right, next)
    ensures PhisNamed(id, P, V', left, right, next)
  {
    assert ListAt(V'.phi, id) == ListAt(V.phi, id);
  }

  lemma {:induction false} RenamedFrame(s: Stmt, P: Plan, V: View, V': View, at: Point)
    requires SameOn(V, V', StmtIds(s)) && Renamed(s, P, V, at)
    ensures Renamed(s, P, V', at)
    decreases s
  {
    match s
    case Skip =>
    case Seq(a, b) =>
      RenamedFrame(a, P, V, V', at);
      RenamedFrame(b, P, V, V', After(a, P, at));
    case Store(id, _, rhs) =>
      UsesFrame(rhs, P, V, V', at.top);
      StoreFrame(id, P, V, V', at);
    case StoreAt(id, _, sub, rhs) =>
      UsesFrame(rhs, P, V, V', at.top);
      UsesFrame(sub, P, V, V', at.top);
      StoreFrame(id, P, V, V', at);
    case Call(id, _, args, ret) =>
      UsesFrame(args, P, V, V', at.top);
      if ret.Some? { StoreFrame(id, P, V, V', at); }
    case Retv(id, kid, _) =>
      UseFrame(kid, P, V, V', at.top);
      assert NoteAt(V', id) == NoteAt(V, id);
      assert ListAt(V'.mu, id) == ListAt(V.mu, id);
    case If(id, c, a, b) =>
      var pa := After(a, P, at);
      var p1 := Point(at.top, pa.next);
      var pb := After(b, P, p1);
      UsesFrame(c, P, V, V', at.top);
      RenamedFrame(a, P, V, V', at);
      RenamedFrame(b, P, V, V', p1);
      PhisFrame(id, P, V, V', pa.top, pb.top, pb.next);
    case Loop(id, _, i, c, st, b) =>
      var head := AtHeader(s, P, at);
      var end := After(b, P, head);
      RootUsesFrame(i, P, V, V', at.top);
      DefFrame(i.id, P, V, V', at.next, i.id);
      PhisFrame(id, P, V, V', Set(at.top, SymOf(P, i.id), at.next), AtBackEdge(s, P, at).top, at.next + 1);
      UsesFrame(c, P, V, V', head.top);
      RenamedFrame(b, P, V, V', head);
      RootUsesFrame(st, P, V, V', end.top);
      DefFrame(st.id, P, V, V', end.next, st.id);
  }
}
