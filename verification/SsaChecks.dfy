/**
  What the verifier accepts, said of the finished tables without stacks:
  `Behind` threads the current versions through a statement as the tables
  themselves define them, and `Checked` compares every operand with them.
  Nothing is taken for granted of the mu, chi and phi lists: a symbol that has
  no phi at a join leaves it with the version of the branch walked last.  Of
  the plan only the symbols of the nodes are used.
 */
module SsaChecks {
  import opened Basics
  import opened Ir
  import opened SsaTables
  import opened Plans
  import opened Renaming

  // ----- single annotations ---------------------------------------------------

  /** The check on a version: it exists and is a version of `sym`. */
  predicate VersionOf(vers: seq<Ver>, ver: Option<nat>, sym: nat) {
    ver.Some? && ver.value < |vers| && vers[ver.value].sym == sym
  }

  /** The check on a definition: numbered, and defined by what carries it. */
  predicate DefinedBy(vers: seq<Ver>, ver: Option<nat>, sym: nat, def: Def) {
    VersionOf(vers, ver, sym) && vers[ver.value].number.Some? && vers[ver.value].def == def
  }

  function VerAt(nodeVer: map<nat, nat>, id: nat): Option<nat> {
    if id in nodeVer then Some(nodeVer[id]) else None
  }

  /** Node `id` accesses one of the `n` symbols. */
  predicate HasSym(id: nat, P: Plan, n: nat) {
    id in P.nodeSym && P.nodeSym[id] < n
  }

  predicate UseTyped(id: nat, P: Plan, V: View, n: nat) {
    HasSym(id, P, n) && VersionOf(V.vers, VerAt(V.nodeVer, id), SymOf(P, id))
  }

  /** Every visited load carries a version of its symbol; this is all the verifier asks of a use. */
  ghost predicate UsesTyped(e: Expr, P: Plan, V: View, n: nat) {
    match e
    case Leaf(_, _) => true
    case Node(_, _, l, r) => UsesTyped(l, P, V, n) && UsesTyped(r, P, V, n)
    case Load(id, _) => UseTyped(id, P, V, n)
    case LoadAt(id, _, sub) => UsesTyped(sub, P, V, n) && UseTyped(id, P, V, n)
    case TableAt(_, _, _) => true
  }

  /** Current versions are versions of their symbols. */
  ghost predicate Typed(V: View, top: seq<nat>) {
    forall i :: 0 <= i < |top| ==> VersionOf(V.vers, Some(top[i]), i)
  }

  // ----- the current versions, as the tables define them ------------------------

  function SetRes(top: seq<nat>, sym: nat, res: Option<nat>): (r: seq<nat>)
    ensures |r| == |top|
  {
    match res
    case Some(ver) => Set(top, sym, ver)
    case None => top
  }

  function BehindDef(id: nat, P: Plan, V: View, top: seq<nat>): (r: seq<nat>)
    ensures |r| == |top|
  {
    SetRes(top, SymOf(P, id), VerAt(V.nodeVer, id))
  }

  function BehindChis(list: seq<Chi>, top: seq<nat>): (r: seq<nat>)
    ensures |r| == |top|
  {
    if list == [] then top
    else
      var n := |list| - 1;
      SetRes(BehindChis(list[..n], top), list[n].sym, list[n].res)
  }

  function BehindPhis(list: seq<Phi>, top: seq<nat>): (r: seq<nat>)
    ensures |r| == |top|
  {
    if list == [] then top
    else
      var n := |list| - 1;
      SetRes(BehindPhis(list[..n], top), list[n].sym, list[n].res)
  }

  function BehindStore(id: nat, P: Plan, V: View, top: seq<nat>): (r: seq<nat>)
    ensures |r| == |top|
  {
    BehindChis(ListAt(V.chi, id), BehindDef(id, P, V, top))
  }

  function Header(s: Stmt, P: Plan, V: View, top: seq<nat>): (r: seq<nat>)
    requires s.Loop?
    ensures |r| == |top|
  {
    BehindPhis(ListAt(V.phi, s.id), BehindDef(s.init.id, P, V, top))
  }

  /** Symbols with a phi at `id` go back to the versions from before, the others keep theirs. */
  function Popped(id: nat, V: View, before: seq<nat>, top: seq<nat>): (r: seq<nat>)
    requires |before| == |top|
    ensures |r| == |top|
  {
    seq(|top|, i requires 0 <= i < |top| => if i in PhiSyms(ListAt(V.phi, id)) then before[i] else top[i])
  }

  function BehindBranch(id: nat, b: Stmt, P: Plan, V: View, top: seq<nat>): (r: seq<nat>)
    ensures |r| == |top|
    decreases b, 1
  {
    Popped(id, V, top, Behind(b, P, V, top))
  }

  /** Behind the step, at the end of the body. */
  function BackEdge(s: Stmt, P: Plan, V: View, top: seq<nat>): (r: seq<nat>)
    requires s.Loop?
    ensures |r| == |top|
    decreases s.body, 1
  {
    BehindDef(s.step.id, P, V, Behind(s.body, P, V, top))
  }

  function Behind(s: Stmt, P: Plan, V: View, top: seq<nat>): (r: seq<nat>)
    ensures |r| == |top|
    decreases s, 0
  {
    match s
    case Skip => top
    case Seq(a, b) => Behind(b, P, V, Behind(a, P, V, top))
    case Store(id, _, _) => BehindStore(id, P, V, top)
    case StoreAt(id, _, _, _) => BehindStore(id, P, V, top)
    case Call(id, _, _, ret) => if ret.Some? then BehindStore(id, P, V, top) else top
    case Retv(_, _, _) => top
    case If(id, _, a, b) =>
      BehindPhis(ListAt(V.phi, id), BehindBranch(id, b, P, V, BehindBranch(id, a, P, V, top)))
    case Loop(id, _, _, _, _, _) =>
      var head := Header(s, P, V, top);
      Popped(id, V, head, BackEdge(s, P, V, head))
  }

  // ----- the checks -------------------------------------------------------------

  predicate DefChecked(id: nat, P: Plan, V: View, n: nat) {
    HasSym(id, P, n) && DefinedBy(V.vers, VerAt(V.nodeVer, id), SymOf(P, id), ByStmt(id))
  }

  predicate ChiChecked(id: nat, k: nat, c: Chi, V: View, top: seq<nat>) {
    && c.sym < |top| && VersionOf(V.vers, c.opnd, c.sym) && c.opnd == Some(top[c.sym])
    && DefinedBy(V.vers, c.res, c.sym, ByChi(id, k)) && c.defStmt == Some(id)
  }

  /** Every chi reads the version current before it. */
  ghost predicate ChisChecked(id: nat, V: View, top: seq<nat>) {
    var list := ListAt(V.chi, id);
    forall k :: 0 <= k < |list| ==> ChiChecked(id, k, list[k], V, BehindChis(list[..k], top))
  }

  ghost predicate StoreChecked(id: nat, P: Plan, V: View, top: seq<nat>) {
    DefChecked(id, P, V, |top|) && ChisChecked(id, V, BehindDef(id, P, V, top))
  }

  predicate OpndChecked(p: Phi, k: nat, V: View, top: seq<nat>) {
    p.sym < |top| && k < |p.opnd| && VersionOf(V.vers, p.opnd[k], p.sym) && p.opnd[k] == Some(top[p.sym])
  }

  /** Operand `k` of every phi is the version current at the end of edge `k`. */
  ghost predicate OpndsChecked(id: nat, k: nat, V: View, top: seq<nat>) {
    forall j :: 0 <= j < |ListAt(V.phi, id)| ==> OpndChecked(ListAt(V.phi, id)[j], k, V, top)
  }

  predicate PhiChecked(id: nat, k: nat, p: Phi, V: View, n: nat) {
    p.sym < n && DefinedBy(V.vers, p.res, p.sym, ByPhi(id, k)) && p.defStmt == Some(id)
  }

  ghost predicate PhisChecked(id: nat, V: View, n: nat) {
    forall k :: 0 <= k < |ListAt(V.phi, id)| ==> PhiChecked(id, k, ListAt(V.phi, id)[k], V, n)
  }

  /** The symbols that are marked at a statement exist. */
  predicate MarksChecked(id: nat, V: View, n: nat) {
    forall p :: p in ListAt(V.phi, id) ==> p.sym < n
  }

  predicate MuChecked(m: Mu, V: View, top: seq<nat>) {
    m.sym < |top| && VersionOf(V.vers, m.opnd, m.sym) && m.opnd == Some(top[m.sym])
  }

  ghost predicate MusChecked(id: nat, V: View, top: seq<nat>) {
    forall k :: 0 <= k < |ListAt(V.mu, id)| ==> MuChecked(ListAt(V.mu, id)[k], V, top)
  }

  ghost predicate BranchChecked(id: nat, b: Stmt, k: nat, P: Plan, V: View, top: seq<nat>)
    decreases b, 1
  {
    MarksChecked(id, V, |top|) && Checked(b, P, V, top) && OpndsChecked(id, k, V, Behind(b, P, V, top))
  }

  /** The induction variable is set, then the results of the phis are. */
  ghost predicate HeaderChecked(s: Stmt, P: Plan, V: View, top: seq<nat>)
    requires s.Loop?
  {
    && DefChecked(s.init.id, P, V, |top|) && OpndsChecked(s.id, 0, V, BehindDef(s.init.id, P, V, top))
    && PhisChecked(s.id, V, |top|)
  }

  ghost predicate BodyChecked(s: Stmt, P: Plan, V: View, head: seq<nat>)
    requires s.Loop?
    decreases s.body, 1
  {
    && MarksChecked(s.id, V, |head|) && Checked(s.body, P, V, head)
    && UsesTyped(s.step, P, V, |head|) && DefChecked(s.step.id, P, V, |head|)
    && OpndsChecked(s.id, 1, V, BackEdge(s, P, V, head))
  }

  ghost predicate Checked(s: Stmt, P: Plan, V: View, top: seq<nat>)
    decreases s, 0
  {
    var n := |top|;
    match s
    case Skip => true
    case Seq(a, b) => Checked(a, P, V, top) && Checked(b, P, V, Behind(a, P, V, top))
    case Store(id, _, rhs) => UsesTyped(rhs, P, V, n) && StoreChecked(id, P, V, top)
    case StoreAt(id, _, sub, rhs) => UsesTyped(rhs, P, V, n) && UsesTyped(sub, P, V, n) && StoreChecked(id, P, V, top)
    case Call(id, _, args, ret) => UsesTyped(args, P, V, n) && (ret.Some? ==> StoreChecked(id, P, V, top))
    case Retv(id, kid, _) => UseTyped(kid, P, V, n) && MusChecked(id, V, top)
    case If(id, c, a, b) =>
      && UsesTyped(c, P, V, n) && BranchChecked(id, a, 0, P, V, top)
      && BranchChecked(id, b, 1, P, V, BehindBranch(id, a, P, V, top)) && PhisChecked(id, V, n)
    case Loop(_, _, i, c, _, _) =>
      var head := Header(s, P, V, top);
      UsesTyped(i, P, V, n) && HeaderChecked(s, P, V, top) && UsesTyped(c, P, V, n) && BodyChecked(s, P, V, head)
  }

  ghost predicate FuncChecked(f: Func, P: Plan, V: View, n: nat) {
    && ChisChecked(f.id, V, ZeroPoint(n).top)
    && (forall g :: g in f.formals ==> UseTyped(g.id, P, V, n))
    && Checked(f.body, P, V, BehindChis(ListAt(V.chi, f.id), ZeroPoint(n).top))
  }

  // ----- renamed forms pass -----------------------------------------------------

  lemma {:induction false} NamedTyped(e: Expr, syms: seq<Sym>, P: Plan, V: View, top: seq<nat>)
    requires ExprPlanned(e, syms, P) && UsesNamed(e, P, V, top) && Typed(V, top) && |top| == |syms|
    ensures UsesTyped(e, P, V, |top|)
  {
    match e
    case Node(_, _, l, r) => NamedTyped(l, syms, P, V, top); NamedTyped(r, syms, P, V, top);
    case LoadAt(_, _, sub) => NamedTyped(sub, syms, P, V, top);
    case _ =>
  }

  lemma RootTyped(e: Expr, iv: Var, syms: seq<Sym>, P: Plan, V: View, top: seq<nat>, next: nat)
    requires RootPlanned(e, iv, syms, P) && RootUsesNamed(e, P, V, top) && Typed(V, top) && |top| == |syms|
    requires DefNamed(e.id, P, V, next, e.id)
    ensures UsesTyped(e, P, V, |top|)
  {
    match e
    case Load(_, _) =>
    case LoadAt(_, _, sub) => NamedTyped(sub, syms, P, V, top);
    case _ => NamedTyped(e, syms, P, V, top);
  }

  lemma DefPasses(id: nat, P: Plan, V: View, top: seq<nat>, next: nat)
    requires DefNamed(id, P, V, next, id) && Typed(V, top) && HasSym(id, P, |top|)
    ensures DefChecked(id, P, V, |top|) && BehindDef(id, P, V, top) == Set(top, SymOf(P, id), next)
    ensures Typed(V, BehindDef(id, P, V, top))
  {
  }

  lemma ChiPasses(id: nat, P: Plan, V: View, top: seq<nat>, next: nat, k: nat, cur: seq<nat>)
    requires ChisNamed(id, P, V, top, next) && Walkable(ListAt(P.chi, id), |top|) && k < |ListAt(V.chi, id)|
    requires |ListAt(P.chi, id)| == |ListAt(V.chi, id)| && cur == PushAll(ListAt(P.chi, id)[..k], top, next) &&
             Typed(V, cur)
    ensures var c := ListAt(V.chi, id)[k];
            && ChiChecked(id, k, c, V, cur)
            && SetRes(cur, c.sym, c.res) == PushAll(ListAt(P.chi, id)[..k + 1], top, next)
            && Typed(V, SetRes(cur, c.sym, c.res))
  {
    var syms := ListAt(P.chi, id);
    ChiSymsAt(ListAt(V.chi, id), k);
    NextOfList(syms, top, next, k);
    assert syms[..k + 1][..k] == syms[..k];
  }

  lemma {:induction false} ChisPass(id: nat, P: Plan, V: View, top: seq<nat>, next: nat, k: nat)
    requires ChisNamed(id, P, V, top, next) && Typed(V, top) && Walkable(ListAt(P.chi, id), |top|)
    requires k <= |ListAt(V.chi, id)| == |ListAt(P.chi, id)|
    ensures BehindChis(ListAt(V.chi, id)[..k], top) == PushAll(ListAt(P.chi, id)[..k], top, next)
    ensures Typed(V, BehindChis(ListAt(V.chi, id)[..k], top))
    ensures forall j :: 0 <= j < k ==>
            ChiChecked(id, j, ListAt(V.chi, id)[j], V, BehindChis(ListAt(V.chi, id)[..j], top))
  {
    hide ChisNamed, ChiChecked, Typed, Walkable, SetRes;
    var list := ListAt(V.chi, id);
    if k > 0 {
      ChisPass(id, P, V, top, next, k - 1);
      ChiPasses(id, P, V, top, next, k - 1, BehindChis(list[..k - 1], top));
      assert list[..k][..k - 1] == list[..k - 1];
    }
  }

  lemma {:induction false} PhisPass(id: nat, P: Plan, V: View, top: seq<nat>, next: nat, k: nat)
    requires ResultsSet(id, P, V, next) && Typed(V, top) && Walkable(ListAt(P.phi, id), |top|)
    requires k <= |ListAt(V.phi, id)|
    ensures |ListAt(P.phi, id)| == |ListAt(V.phi, id)|
    ensures BehindPhis(ListAt(V.phi, id)[..k], top) == PushAll(ListAt(P.phi, id)[..k], top, next)
    ensures Typed(V, BehindPhis(ListAt(V.phi, id)[..k], top))
    ensures forall j :: 0 <= j < k ==> PhiChecked(id, j, ListAt(V.phi, id)[j], V, |top|)
  {
    var list, syms := ListAt(V.phi, id), ListAt(P.phi, id);
    if k > 0 {
      PhisPass(id, P, V, top, next, k - 1);
      PhiSymsAt(list, k - 1);
      assert list[..k][..k - 1] == list[..k - 1] && syms[..k][..k - 1] == syms[..k - 1];
    }
  }

  lemma ChisAllPass(id: nat, P: Plan, V: View, top: seq<nat>, next: nat)
    requires ChisNamed(id, P, V, top, next) && Typed(V, top) && Walkable(ListAt(P.chi, id), |top|)
    ensures ChisChecked(id, V, top) && BehindChis(ListAt(V.chi, id), top) == PushAll(ListAt(P.chi, id), top, next)
    ensures Typed(V, BehindChis(ListAt(V.chi, id), top))
  {
    var list, syms := ListAt(V.chi, id), ListAt(P.chi, id);
    ChisPass(id, P, V, top, next, |list|);
    assert list[..|list|] == list && syms[..|list|] == syms;
  }

  lemma PhisAllPass(id: nat, P: Plan, V: View, top: seq<nat>, next: nat)
    requires ResultsSet(id, P, V, next) && Typed(V, top) && Walkable(ListAt(P.phi, id), |top|)
    ensures PhisChecked(id, V, |top|) && BehindPhis(ListAt(V.phi, id), top) == PushAll(ListAt(P.phi, id), top, next)
    ensures Typed(V, BehindPhis(ListAt(V.phi, id), top))
  {
    var list, syms := ListAt(V.phi, id), ListAt(P.phi, id);
    PhisPass(id, P, V, top, next, |list|);
    assert list[..|list|] == list && syms[..|list|] == syms;
  }

  lemma OpndsPass(id: nat, P: Plan, V: View, k: nat, top: seq<nat>)
    requires OpndSet(id, P, V, k, top) && Typed(V, top)
    ensures OpndsChecked(id, k, V, top)
  {
  }

  lemma MusPass(id: nat, P: Plan, V: View, top: seq<nat>)
    requires MusNamed(id, P, V, top) && Typed(V, top)
    ensures MusChecked(id, V, top)
  {
  }

  lemma PhisParts(id: nat, P: Plan, V: View, left: seq<nat>, right: seq<nat>, next: nat)
    requires PhisNamed(id, P, V, left, right, next)
    ensures OpndSet(id, P, V, 0, left) && OpndSet(id, P, V, 1, right) && ResultsSet(id, P, V, next)
  {
  }

  lemma StorePasses(id: nat, d: Place, syms: seq<Sym>, P: Plan, V: View, at: Point)
    requires DefPlanned(id, d, syms, P) && StoreNamed(id, P, V, at) && Typed(V, at.top) && |at.top| == |syms|
    ensures StoreChecked(id, P, V, at.top) && BehindStore(id, P, V, at.top) == AfterDef(id, P, at).top
    ensures Typed(V, AfterDef(id, P, at).top)
  {
    hide ChisNamed, ChisChecked, BehindChis, PushAll, Typed, DefNamed, DefChecked;
    DefWalkable(id, d, syms, P);
    DefPasses(id, P, V, at.top, at.next);
    ChisAllPass(id, P, V, BehindDef(id, P, V, at.top), at.next + 1);
  }

  /** Where every symbol that changes has a phi, popping gives back the versions from before. */
  lemma PoppedKept(id: nat, P: Plan, V: View, before: seq<nat>, top: seq<nat>)
    requires PhiSyms(ListAt(V.phi, id)) == ListAt(P.phi, id) && |before| == |top|
    requires forall i :: 0 <= i < |top| && i !in ListAt(P.phi, id) ==> top[i] == before[i]
    ensures Popped(id, V, before, top) == before
  {
  }

  lemma MarksPass(id: nat, P: Plan, V: View, n: nat)
    requires PhiSyms(ListAt(V.phi, id)) == ListAt(P.phi, id) && Walkable(ListAt(P.phi, id), n)
    ensures MarksChecked(id, V, n)
  {
    var list := ListAt(V.phi, id);
    forall p | p in list ensures p.sym < n {
      var k :| 0 <= k < |list| && list[k] == p;
      assert PhiSyms(list)[k] == p.sym;
    }
  }

  /** What renaming leaves behind passes, and the tables define the versions renaming had in hand. */
  lemma {:induction false} RenamedPasses(s: Stmt, syms: seq<Sym>, P: Plan, V: View, at: Point)
    requires Planned(s, syms, P) && Renamed(s, P, V, at) && Typed(V, at.top) && |at.top| == |syms| &&
             Below(at.top, at.next)
    ensures Checked(s, P, V, at.top) && Behind(s, P, V, at.top) == After(s, P, at).top
    ensures Typed(V, After(s, P, at).top)
    decreases s, 1
  {
    hide ChisNamed, Typed, StoreNamed, StoreChecked, BehindStore, AfterDef, MusNamed, MusChecked, NodeSymIs,
         Relatives, DistinctPlaces;
    match s
    case Skip =>
    case Seq(a, b) =>
      AfterBelow(a, P, at);
      RenamedPasses(a, syms, P, V, at);
      RenamedPasses(b, syms, P, V, After(a, P, at));
    case Store(id, p, rhs) =>
      NamedTyped(rhs, syms, P, V, at.top);
      StorePasses(id, p, syms, P, V, at);
    case StoreAt(id, v, sub, rhs) =>
      NamedTyped(rhs, syms, P, V, at.top);
      NamedTyped(sub, syms, P, V, at.top);
      StorePasses(id, Whole(v), syms, P, V, at);
    case Call(id, _, args, ret) =>
      NamedTyped(args, syms, P, V, at.top);
      if ret.Some? {
        StorePasses(id, Whole(ret.value), syms, P, V, at);
      }
    case Retv(id, kid, v) =>
      NamedTyped(Load(kid, Whole(v)), syms, P, V, at.top);
      MusPass(id, P, V, at.top);
    case If(_, _, _, _) => IfPasses(s, syms, P, V, at);
    case Loop(_, _, _, _, _, _) => LoopPasses(s, syms, P, V, at);
  }

  lemma {:induction false} BranchPasses(id: nat, b: Stmt, k: nat, syms: seq<Sym>, P: Plan, V: View, at: Point)
    requires Planned(b, syms, P) && Renamed(b, P, V, at) && Typed(V, at.top) && |at.top| == |syms| &&
             Below(at.top, at.next)
    requires OpndSet(id, P, V, k, After(b, P, at).top) && Walkable(ListAt(P.phi, id), |syms|)
    requires Defs(b, syms, P) <= Elems(ListAt(P.phi, id))
    ensures BranchChecked(id, b, k, P, V, at.top) && BehindBranch(id, b, P, V, at.top) == at.top
    decreases b, 2
  {
    hide Typed, Renamed, Checked, Behind, OpndsChecked, Walkable, MarksChecked;
    var end := After(b, P, at).top;
    RenamedPasses(b, syms, P, V, at);
    OpndsPass(id, P, V, k, end);
    MarksPass(id, P, V, |syms|);
    forall i | 0 <= i < |syms| && i !in ListAt(P.phi, id) ensures end[i] == at.top[i] {
      assert i !in Elems(ListAt(P.phi, id));
      UndefinedKept(b, syms, P, at, i);
    }
    PoppedKept(id, P, V, at.top, end);
  }

  lemma {:induction false} IfPasses(s: Stmt, syms: seq<Sym>, P: Plan, V: View, at: Point)
    requires s.If? && Below(at.top, at.next)
    requires Planned(s, syms, P) && Renamed(s, P, V, at) && Typed(V, at.top) && |at.top| == |syms|
    ensures Checked(s, P, V, at.top) && Behind(s, P, V, at.top) == After(s, P, at).top
    ensures Typed(V, After(s, P, at).top)
    decreases s, 0
  {
    hide Typed, OpndSet, ResultsSet, PhisNamed, UsesNamed, UsesTyped, PhisChecked, OpndsChecked, Walkable, BehindPhis,
         PushAll, NoDup, ExprPlanned, DistinctPlaces, Relatives, BranchChecked, BehindBranch;
    var pa := After(s.thn, P, at);
    var at1 := Point(at.top, pa.next);
    var pb := After(s.els, P, at1);
    AfterBelow(s.thn, P, at);
    PhisWalkable(s, syms, P);
    NamedTyped(s.cond, syms, P, V, at.top);
    PhisParts(s.id, P, V, pa.top, pb.top, pb.next);
    BranchPasses(s.id, s.thn, 0, syms, P, V, at);
    BranchPasses(s.id, s.els, 1, syms, P, V, at1);
    PhisAllPass(s.id, P, V, at.top, pb.next);
  }

  lemma {:induction false} LoopPasses(s: Stmt, syms: seq<Sym>, P: Plan, V: View, at: Point)
    requires s.Loop? && Below(at.top, at.next)
    requires Planned(s, syms, P) && Renamed(s, P, V, at) && Typed(V, at.top) && |at.top| == |syms|
    ensures Checked(s, P, V, at.top) && Behind(s, P, V, at.top) == After(s, P, at).top
    ensures Typed(V, After(s, P, at).top)
    decreases s, 0
  {
    hide ChisNamed, Typed, OpndSet, ResultsSet, PhisNamed, UsesNamed, RootUsesNamed, DefNamed, DefChecked, UsesTyped,
         PhisChecked, OpndsChecked, Walkable, BehindPhis, PushAll, NoDup, ExprPlanned, DistinctPlaces, Relatives,
         Popped, BodyChecked, MarksChecked;
    var head, topI, back := AtHeader(s, P, at), Set(at.top, SymOf(P, s.init.id), at.next), AtBackEdge(s, P, at);
    PhisWalkable(s, syms, P);
    PhisParts(s.id, P, V, topI, back.top, at.next + 1);
    RootTyped(s.init, s.iv, syms, P, V, at.top, at.next);
    DefPasses(s.init.id, P, V, at.top, at.next);
    OpndsPass(s.id, P, V, 0, topI);
    PhisAllPass(s.id, P, V, topI, at.next + 1);
    NamedTyped(s.cmp, syms, P, V, head.top);
    BodyPasses(s, syms, P, V, at);
  }

  lemma {:induction false} BodyPasses(s: Stmt, syms: seq<Sym>, P: Plan, V: View, at: Point)
    requires s.Loop? && Below(at.top, at.next) && |at.top| == |syms|
    requires Planned(s, syms, P) && Renamed(s, P, V, at) && Typed(V, AtHeader(s, P, at).top)
    ensures var head := AtHeader(s, P, at).top;
            BodyChecked(s, P, V, head) && Popped(s.id, V, head, BackEdge(s, P, V, head)) == head
    decreases s.body, 2
  {
    hide ChisNamed, Typed, OpndSet, ResultsSet, PhisNamed, UsesNamed, RootUsesNamed, DefNamed, DefChecked, UsesTyped,
         OpndsChecked, Walkable, NoDup, ExprPlanned, DistinctPlaces, Relatives, MarksChecked, Defs, Below, PushAll,
         Checked, Behind, Popped;
    var head := AtHeader(s, P, at);
    var end, back := After(s.body, P, head), AtBackEdge(s, P, at);
    HeaderBelow(s, P, at);
    AfterBelow(s.body, P, head);
    PhisWalkable(s, syms, P);
    PhisParts(s.id, P, V, Set(at.top, SymOf(P, s.init.id), at.next), back.top, at.next + 1);
    RenamedPasses(s.body, syms, P, V, head);
    RootTyped(s.step, s.iv, syms, P, V, end.top, end.next);
    DefPasses(s.step.id, P, V, end.top, end.next);
    OpndsPass(s.id, P, V, 1, back.top);
    MarksPass(s.id, P, V, |syms|);
    BackKept(s, syms, P, at);
    PoppedKept(s.id, P, V, head.top, back.top);
  }

  lemma BackLong(s: Stmt, P: Plan, at: Point)
    requires s.Loop? && Below(at.top, at.next)
    ensures |AtHeader(s, P, at).top| == |AtBackEdge(s, P, at).top| == |at.top|
  {
    HeaderBelow(s, P, at);
    AfterBelow(s.body, P, AtHeader(s, P, at));
  }

  /** A symbol without a phi is the same at the end of the body as at the header. */
  lemma BackKept(s: Stmt, syms: seq<Sym>, P: Plan, at: Point)
    requires s.Loop? && Planned(s, syms, P) && |at.top| == |syms| && Below(at.top, at.next)
    ensures |AtBackEdge(s, P, at).top| == |syms|
    ensures forall i :: 0 <= i < |syms| && i !in ListAt(P.phi, s.id) ==>
              AtBackEdge(s, P, at).top[i] == AtHeader(s, P, at).top[i]
  {
    hide Relatives, ExprPlanned, DistinctPlaces, NoDup, Below;
    var head := AtHeader(s, P, at);
    BackLong(s, P, at);
    StepSym(s, syms, P);
    forall i | 0 <= i < |syms| && i !in ListAt(P.phi, s.id)
      ensures AtBackEdge(s, P, at).top[i] == head.top[i]
    {
      assert i !in Elems(ListAt(P.phi, s.id));
      UndefinedKept(s.body, syms, P, head, i);
    }
  }

  /** Build, then verify: a renamed function passes every check. */
  lemma FuncPasses(f: Func, syms: seq<Sym>, P: Plan, V: View)
    requires FuncPlanned(f, syms, P) && FuncRenamed(f, P, V, |syms|)
    requires |syms| <= |V.vers| && forall i :: 0 <= i < |syms| ==> V.vers[i].sym == i
    ensures FuncChecked(f, P, V, |syms|)
  {
    hide ChisNamed, ChisChecked, Renamed, Checked, Planned, PushAll;
    var n := |syms|;
    EntryWalkable(f, syms, P);
    PushAllBelow(ListAt(P.chi, f.id), ZeroPoint(n).top, n);
    ChisAllPass(f.id, P, V, ZeroPoint(n).top, n);
    RenamedPasses(f.body, syms, P, V, BodyPoint(f, P, n));
  }

  // ----- what passes besides ----------------------------------------------------

  /** The verifier does not compare a use with the stack: a stale version of the symbol passes. */
  lemma StaleUsePasses(id: nat, P: Plan, V: View, top: seq<nat>, stale: nat)
    requires UseNamed(id, P, V, top) && Typed(V, top) && id in P.nodeSym
    requires VersionOf(V.vers, Some(stale), SymOf(P, id)) && stale != top[SymOf(P, id)]
    ensures var V' := V.(nodeVer := V.nodeVer[id := stale]);
            UseTyped(id, P, V', |top|) && !UseNamed(id, P, V', top)
  {
  }

  lemma NothingPopped(id: nat, V: View, before: seq<nat>, top: seq<nat>)
    requires ListAt(V.phi, id) == [] && |before| == |top|
    ensures Popped(id, V, before, top) == top
  {
    assert PhiSyms([]) == [];
  }

  lemma IfBehind(s: Stmt, P: Plan, V: View, top: seq<nat>)
    requires s.If?
    ensures Behind(s, P, V, top) ==
              BehindPhis(ListAt(V.phi, s.id), BehindBranch(s.id, s.els, P, V, BehindBranch(s.id, s.thn, P, V, top)))
  {
  }

  /** Neither does it ask for phis: where none of the symbols defined in a branch has one, the `if` passes as it is. */
  lemma MissingPhiPasses(s: Stmt, P: Plan, V: View, top: seq<nat>)
    requires s.If? && ListAt(V.phi, s.id) == [] && UsesTyped(s.cond, P, V, |top|)
    requires Checked(s.thn, P, V, top) && Checked(s.els, P, V, Behind(s.thn, P, V, top))
    ensures Checked(s, P, V, top) && Behind(s, P, V, top) == Behind(s.els, P, V, Behind(s.thn, P, V, top))
  {
    hide Behind, UsesTyped;
    var top1 := Behind(s.thn, P, V, top);
    var top2 := Behind(s.els, P, V, top1);
    NothingPopped(s.id, V, top, top1);
    NothingPopped(s.id, V, top1, top2);
    IfBehind(s, P, V, top);
  }
}
