/**
  Where values come from: along the path a function body takes, the statement
  that defined or overlapped each symbol last, beside what the versions say.
  The version a load carries resolves, through phis, to that very execution of
  that very statement.
 */
module Provenance {
  import opened Basics
  import opened Ir
  import opened StoreSemantics
  import opened SsaTables
  import opened SsaSemantics
  import opened Plans
  import opened Meaning

  /** One execution of a defining node, or the entry of the function. */
  datatype Definer = Entry | By(node: nat, time: nat)

  // ----- beside the store: the last definer of every symbol -------------------------

  /** `log` has every executed load with the last definer of what it loads. */
  datatype Trail = Trail(last: seq<Definer>, time: nat, log: seq<(nat, Definer)>)

  function LastOf(t: Trail, sym: nat): Definer {
    if sym < |t.last| then t.last[sym] else Entry
  }

  /** Node `id` defines its symbol and whatever occurs and overlaps it. */
  ghost function TrackDef(id: nat, syms: seq<Sym>, P: Plan, t: Trail): Trail {
    var d := By(id, t.time);
    Trail(seq(|t.last|, i requires 0 <= i < |t.last| =>
            if i == SymOf(P, id) || i in Relatives(syms, SymOf(P, id)) then d else t.last[i]),
          t.time + 1, t.log)
  }

  function TrackUse(id: nat, P: Plan, t: Trail): Trail {
    t.(log := t.log + [(id, LastOf(t, SymOf(P, id)))])
  }

  function TrackLoads(e: Expr, P: Plan, t: Trail): Trail {
    match e
    case Leaf(_, _) => t
    case Node(_, _, l, r) => TrackLoads(r, P, TrackLoads(l, P, t))
    case Load(id, _) => TrackUse(id, P, t)
    case LoadAt(id, _, sub) => TrackUse(id, P, TrackLoads(sub, P, t))
    case TableAt(_, _, _) => t
  }

  ghost function Track(s: Stmt, syms: seq<Sym>, P: Plan, mem: Mem, t: Trail, fuel: nat, ops: Ops): Trail
    decreases fuel, s, 1
  {
    match s
    case Skip => t
    case Seq(a, b) =>
      var t1 := Track(a, syms, P, mem, t, fuel, ops);
      var r := Run(a, mem, fuel, ops);
      if r.Next? then Track(b, syms, P, r.mem, t1, fuel, ops) else t1
    case Store(id, _, rhs) => TrackDef(id, syms, P, TrackLoads(rhs, P, t))
    case StoreAt(id, _, sub, rhs) => TrackDef(id, syms, P, TrackLoads(sub, P, TrackLoads(rhs, P, t)))
    case Call(id, _, args, ret) =>
      var t1 := TrackLoads(args, P, t);
      if ret.Some? then TrackDef(id, syms, P, t1) else t1
    case Retv(_, kid, _) => TrackUse(kid, P, t)
    case If(_, c, a, b) =>
      Track(if Eval(c, mem, ops).bits != 0 then a else b, syms, P, mem, TrackLoads(c, P, t), fuel, ops)
    case Loop(_, iv, i, _, _, _) =>
      TrackLoop(s, syms, P, Apply(mem, Effect(Whole(iv), Eval(i, mem, ops))),
                TrackDef(i.id, syms, P, TrackLoads(i, P, t)), fuel, ops)
  }

  ghost function TrackLoop(s: Stmt, syms: seq<Sym>, P: Plan, mem: Mem, t: Trail, fuel: nat, ops: Ops): Trail
    requires s.Loop?
    decreases fuel, s, 0
  {
    if fuel == 0 then t
    else
      var t1 := TrackLoads(s.cmp, P, t);
      if Eval(s.cmp, mem, ops).bits == 0 then t1
      else
        var r := Run(s.body, mem, fuel, ops);
        var t2 := Track(s.body, syms, P, mem, t1, fuel, ops);
        if r.Next? then
          TrackLoop(s, syms, P, Apply(r.mem, Effect(Whole(s.iv), Eval(s.step, r.mem, ops))),
                    TrackDef(s.step.id, syms, P, TrackLoads(s.step, P, t2)), fuel - 1, ops)
        else t2
  }

  // ----- beside it: what the versions resolve to --------------------------------------

  /** The definer each version resolves to. */
  datatype Roots = Roots(orig: map<nat, Definer>, time: nat, log: seq<(nat, Definer)>)

  function RootOf(orig: map<nat, Definer>, ver: nat): Definer {
    if ver in orig then orig[ver] else Entry
  }

  function ChiRoots(list: seq<Chi>, d: Definer, orig: map<nat, Definer>): map<nat, Definer> {
    if list == [] then orig
    else ChiRoots(list[..|list| - 1], d, orig)[OrZero(list[|list| - 1].res) := d]
  }

  /** A phi result resolves to what the operand of the edge taken resolves to. */
  function PhiRoots(list: seq<Phi>, k: nat, orig: map<nat, Definer>): map<nat, Definer> {
    if list == [] then orig
    else
      var p := list[|list| - 1];
      var opnd := if k < |p.opnd| then OrZero(p.opnd[k]) else 0;
      PhiRoots(list[..|list| - 1], k, orig)[OrZero(p.res) := RootOf(orig, opnd)]
  }

  function ResolveDef(id: nat, V: View, u: Roots): Roots {
    var d := By(id, u.time);
    Roots(ChiRoots(ListAt(V.chi, id), d, u.orig[VerOf(V, id) := d]), u.time + 1, u.log)
  }

  function ResolveUse(id: nat, V: View, u: Roots): Roots {
    u.(log := u.log + [(id, RootOf(u.orig, VerOf(V, id)))])
  }

  function ResolveLoads(e: Expr, V: View, u: Roots): Roots {
    match e
    case Leaf(_, _) => u
    case Node(_, _, l, r) => ResolveLoads(r, V, ResolveLoads(l, V, u))
    case Load(id, _) => ResolveUse(id, V, u)
    case LoadAt(id, _, sub) => ResolveUse(id, V, ResolveLoads(sub, V, u))
    case TableAt(_, _, _) => u
  }

  function ResolvePhis(id: nat, k: nat, V: View, u: Roots): Roots {
    u.(orig := PhiRoots(ListAt(V.phi, id), k, u.orig))
  }

  /** A loop root defines the induction variable and nothing else. */
  function ResolveIv(e: Expr, V: View, u: Roots): Roots {
    var u1 := ResolveLoads(e, V, u);
    Roots(u1.orig[VerOf(V, e.id) := By(e.id, u1.time)], u1.time + 1, u1.log)
  }

  function Resolve(s: Stmt, V: View, mem: Mem, u: Roots, fuel: nat, ops: Ops): Roots
    decreases fuel, s, 1
  {
    match s
    case Skip => u
    case Seq(a, b) =>
      var u1 := Resolve(a, V, mem, u, fuel, ops);
      var r := Run(a, mem, fuel, ops);
      if r.Next? then Resolve(b, V, r.mem, u1, fuel, ops) else u1
    case Store(id, _, rhs) => ResolveDef(id, V, ResolveLoads(rhs, V, u))
    case StoreAt(id, _, sub, rhs) => ResolveDef(id, V, ResolveLoads(sub, V, ResolveLoads(rhs, V, u)))
    case Call(id, _, args, ret) =>
      var u1 := ResolveLoads(args, V, u);
      if ret.Some? then ResolveDef(id, V, u1) else u1
    case Retv(_, kid, _) => ResolveUse(kid, V, u)
    case If(id, c, a, b) =>
      var taken := Eval(c, mem, ops).bits != 0;
      var branch := if taken then a else b;
      var u1 := Resolve(branch, V, mem, ResolveLoads(c, V, u), fuel, ops);
      if Run(branch, mem, fuel, ops).Next? then ResolvePhis(id, if taken then 0 else 1, V, u1) else u1
    case Loop(id, iv, i, _, _, _) =>
      ResolveLoop(s, V, Apply(mem, Effect(Whole(iv), Eval(i, mem, ops))), ResolvePhis(id, 0, V, ResolveIv(i, V, u)),
                  fuel, ops)
  }

  function ResolveLoop(s: Stmt, V: View, mem: Mem, u: Roots, fuel: nat, ops: Ops): Roots
    requires s.Loop?
    decreases fuel, s, 0
  {
    if fuel == 0 then u
    else
      var u1 := ResolveLoads(s.cmp, V, u);
      if Eval(s.cmp, mem, ops).bits == 0 then u1
      else
        var r := Run(s.body, mem, fuel, ops);
        var u2 := Resolve(s.body, V, mem, u1, fuel, ops);
        if r.Next? then
          ResolveLoop(s, V, Apply(r.mem, Effect(Whole(s.iv), Eval(s.step, r.mem, ops))),
                      ResolvePhis(s.id, 1, V, ResolveIv(s.step, V, u2)), fuel - 1, ops)
        else u2
  }

  // ----- they agree -------------------------------------------------------------------

  /** The current version of every occurring symbol resolves to its last definer. */
  ghost predicate Tied(syms: seq<Sym>, top: seq<nat>, last: seq<Definer>, orig: map<nat, Definer>) {
    && |top| == |syms| == |last|
    && forall i :: 0 <= i < |syms| && syms[i].realOcc ==> RootOf(orig, top[i]) == last[i]
  }

  /** And the loads executed so far agree. */
  ghost predicate SameLog(t: Trail, u: Roots) {
    t.time == u.time && t.log == u.log
  }

  ghost predicate InStep(syms: seq<Sym>, top: seq<nat>, t: Trail, u: Roots) {
    Tied(syms, top, t.last, u.orig) && SameLog(t, u)
  }

  lemma {:induction false} LoadsInStep(e: Expr, syms: seq<Sym>, P: Plan, V: View, top: seq<nat>, t: Trail, u: Roots)
    requires ExprPlanned(e, syms, P) && UsesNamed(e, P, V, top) && InStep(syms, top, t, u)
    ensures var t', u' := TrackLoads(e, P, t), ResolveLoads(e, V, u);
            InStep(syms, top, t', u') && t'.last == t.last && u'.orig == u.orig
  {
    match e
    case Node(_, _, l, r) =>
      LoadsInStep(l, syms, P, V, top, t, u);
      LoadsInStep(r, syms, P, V, top, TrackLoads(l, P, t), ResolveLoads(l, V, u));
    case LoadAt(_, _, sub) => LoadsInStep(sub, syms, P, V, top, t, u);
    case _ =>
  }

  lemma {:induction false} ChiRootsIs(list: seq<Chi>, n: nat, next: nat, d: Definer, orig: map<nat, Definer>)
    requires n <= |list| && forall k :: 0 <= k < |list| ==> list[k].res == Some(next + k)
    ensures forall v: nat :: v < next ==> RootOf(ChiRoots(list[..n], d, orig), v) == RootOf(orig, v)
    ensures forall v: nat :: next <= v < next + n ==> RootOf(ChiRoots(list[..n], d, orig), v) == d
  {
    if n > 0 {
      ChiRootsIs(list, n - 1, next, d, orig);
      assert list[..n][..n - 1] == list[..n - 1] && list[..n][n - 1] == list[n - 1];
      var before, ver: nat := ChiRoots(list[..n - 1], d, orig), next + n - 1;
      var behind := ChiRoots(list[..n], d, orig);
      assert behind == before[ver := d];
      forall v: nat | next <= v < next + n ensures RootOf(behind, v) == d {
        if v != ver {
          assert RootOf(before, v) == d;
        }
      }
    }
  }

  /** Behind a definition its symbol and all that overlaps it have a version of it; the others keep theirs. */
  lemma DefInStep(id: nat, d: Place, syms: seq<Sym>, P: Plan, V: View, at: Point, t: Trail, u: Roots)
    requires DefPlanned(id, d, syms, P) && StoreNamed(id, P, V, at) && Below(at.top, at.next)
    requires InStep(syms, at.top, t, u)
    ensures InStep(syms, AfterDef(id, P, at).top, TrackDef(id, syms, P, t), ResolveDef(id, V, u))
  {
    var list, chis, sym := ListAt(V.chi, id), ListAt(P.chi, id), SymOf(P, id);
    var n := By(id, u.time);
    ChiRootsIs(list, |list|, at.next + 1, n, u.orig[VerOf(V, id) := n]);
    assert list[..|list|] == list && |chis| == |list|;
    forall i | 0 <= i < |syms| && syms[i].realOcc
      ensures RootOf(ResolveDef(id, V, u).orig, AfterDef(id, P, at).top[i]) == TrackDef(id, syms, P, t).last[i]
    {
      DefRootAt(id, syms, P, at, i);
    }
  }

  lemma DefRootAt(id: nat, syms: seq<Sym>, P: Plan, at: Point, i: nat)
    requires NoDup(ListAt(P.chi, id)) && Elems(ListAt(P.chi, id)) == Relatives(syms, SymOf(P, id))
    requires i < |at.top| && Below(at.top, at.next)
    ensures var chis, top := ListAt(P.chi, id), AfterDef(id, P, at).top;
            if i in Relatives(syms, SymOf(P, id)) then at.next < top[i] <= at.next + |chis|
            else top[i] == if i == SymOf(P, id) then at.next else at.top[i]
  {
    var chis := ListAt(P.chi, id);
    PushAllAt(chis, Set(at.top, SymOf(P, id), at.next), at.next + 1);
    assert i in chis <==> i in Elems(chis);
    if i in chis {
      var k :| 0 <= k < |chis| && chis[k] == i;
    }
  }

  lemma {:induction false} PhiRootsIs(list: seq<Phi>, n: nat, k: nat, next: nat, orig: map<nat, Definer>)
    requires n <= |list|
    requires forall j :: 0 <= j < |list| ==> k < |list[j].opnd| && list[j].res == Some(next + j)
    ensures forall v: nat :: v < next ==> RootOf(PhiRoots(list[..n], k, orig), v) == RootOf(orig, v)
    ensures forall j :: 0 <= j < n ==>
              RootOf(PhiRoots(list[..n], k, orig), next + j) == RootOf(orig, OrZero(list[j].opnd[k]))
  {
    if n > 0 {
      PhiRootsIs(list, n - 1, k, next, orig);
      assert list[..n][..n - 1] == list[..n - 1];
    }
  }

  /** Through the phis of a join, coming from edge `k`. */
  lemma PhisTied(id: nat, k: nat, syms: seq<Sym>, P: Plan, V: View, left: seq<nat>, right: seq<nat>,
                 from: seq<nat>, top: seq<nat>, next: nat, last: seq<Definer>, orig: map<nat, Definer>)
    requires PhisNamed(id, P, V, left, right, next) && NoDup(ListAt(P.phi, id))
    requires k < 2 && from == (if k == 0 then left else right)
    requires Tied(syms, from, last, orig) && |top| == |syms| && Below(top, next)
    requires forall i :: 0 <= i < |syms| && i !in ListAt(P.phi, id) ==> from[i] == top[i]
    ensures Tied(syms, PushAll(ListAt(P.phi, id), top, next), last, PhiRoots(ListAt(V.phi, id), k, orig))
  {
    var list, phis := ListAt(V.phi, id), ListAt(P.phi, id);
    hide NoDup, PushAll, PhiRoots, PhisNamed;
    forall i | 0 <= i < |syms| && syms[i].realOcc
      ensures RootOf(PhiRoots(list, k, orig), PushAll(phis, top, next)[i]) == last[i]
    {
      if i in phis {
        var j :| 0 <= j < |phis| && phis[j] == i;
        PhiRoot(id, k, P, V, left, right, from, next, orig, j);
        PushAllIn(phis, top, next, j);
      } else {
        PushAllOut(phis, top, next, i);
        OlderRoot(id, k, P, V, left, right, next, orig, top[i]);
      }
    }
  }

  lemma PhiRoot(id: nat, k: nat, P: Plan, V: View, left: seq<nat>, right: seq<nat>, from: seq<nat>, next: nat,
                orig: map<nat, Definer>, j: nat)
    requires PhisNamed(id, P, V, left, right, next) && j < |ListAt(P.phi, id)|
    requires k < 2 && from == (if k == 0 then left else right)
    ensures ListAt(P.phi, id)[j] < |from|
    ensures RootOf(PhiRoots(ListAt(V.phi, id), k, orig), next + j) == RootOf(orig, from[ListAt(P.phi, id)[j]])
  {
    var list := ListAt(V.phi, id);
    PhiRootsIs(list, |list|, k, next, orig);
    assert list[..|list|] == list && PhiSyms(list)[j] == list[j].sym;
  }

  lemma OlderRoot(id: nat, k: nat, P: Plan, V: View, left: seq<nat>, right: seq<nat>, next: nat,
                  orig: map<nat, Definer>, ver: nat)
    requires PhisNamed(id, P, V, left, right, next) && k < 2 && ver < next
    ensures RootOf(PhiRoots(ListAt(V.phi, id), k, orig), ver) == RootOf(orig, ver)
  {
    var list := ListAt(V.phi, id);
    PhiRootsIs(list, |list|, k, next, orig);
    assert list[..|list|] == list;
  }

  /** A loop root, on the way into the loop or around it. */
  lemma IvInStep(e: Expr, iv: Var, syms: seq<Sym>, P: Plan, V: View, at: Point, t: Trail, u: Roots)
    requires !BareLoad(e) && RootPlanned(e, iv, syms, P) && Relatives(syms, SymOf(P, e.id)) == {}
    requires RootUsesNamed(e, P, V, at.top) && DefNamed(e.id, P, V, at.next, e.id)
    requires Below(at.top, at.next) && InStep(syms, at.top, t, u)
    ensures InStep(syms, Set(at.top, SymOf(P, e.id), at.next), TrackDef(e.id, syms, P, TrackLoads(e, P, t)),
                   ResolveIv(e, V, u))
  {
    LoadsInStep(e, syms, P, V, at.top, t, u);
  }

  // ----- statements -------------------------------------------------------------------

  ghost predicate Prepared(s: Stmt, syms: seq<Sym>, P: Plan, V: View, at: Point) {
    Planned(s, syms, P) && NoBareRoots(s) && Renamed(s, P, V, at) && Below(at.top, at.next) && |at.top| == |syms|
  }

  /**
    No load reads a stale version: along every run each executed load carries a
    version that resolves, through phis, to the last execution of a statement
    that defined what it loads or overlapped it.
   */
  lemma {:induction false} LoadsResolve(s: Stmt, syms: seq<Sym>, P: Plan, V: View, at: Point, mem: Mem, t: Trail,
                                        u: Roots, fuel: nat, ops: Ops)
    requires Prepared(s, syms, P, V, at) && InStep(syms, at.top, t, u)
    ensures var t', u' := Track(s, syms, P, mem, t, fuel, ops), Resolve(s, V, mem, u, fuel, ops);
            SameLog(t', u') && (Run(s, mem, fuel, ops).Next? ==> Tied(syms, After(s, P, at).top, t'.last, u'.orig))
    decreases fuel, s, 1
  {
    match s
    case Skip =>
    case Seq(a, b) =>
      AfterBelow(a, P, at);
      LoadsResolve(a, syms, P, V, at, mem, t, u, fuel, ops);
      var r := Run(a, mem, fuel, ops);
      if r.Next? {
        LoadsResolve(b, syms, P, V, After(a, P, at), r.mem, Track(a, syms, P, mem, t, fuel, ops),
                     Resolve(a, V, mem, u, fuel, ops), fuel, ops);
      }
    case Retv(_, _, _) =>
    case If(_, _, _, _) => IfResolves(s, syms, P, V, at, mem, t, u, fuel, ops);
    case Loop(_, _, _, _, _, _) => EnterResolves(s, syms, P, V, at, mem, t, u, fuel, ops);
    case _ => DefResolves(s, syms, P, V, at, mem, t, u, fuel, ops);
  }

  lemma DefResolves(s: Stmt, syms: seq<Sym>, P: Plan, V: View, at: Point, mem: Mem, t: Trail, u: Roots, fuel: nat,
                    ops: Ops)
    requires s.Store? || s.StoreAt? || s.Call?
    requires Prepared(s, syms, P, V, at) && InStep(syms, at.top, t, u)
    ensures var t', u' := Track(s, syms, P, mem, t, fuel, ops), Resolve(s, V, mem, u, fuel, ops);
            SameLog(t', u') && Tied(syms, After(s, P, at).top, t'.last, u'.orig)
  {
    hide ChiRoots, ChisNamed, DefNamed, Relatives, AfterDef, TrackDef, ResolveDef, StoreNamed, DefPlanned, Tied;
    match s
    case Store(id, p, rhs) =>
      LoadsInStep(rhs, syms, P, V, at.top, t, u);
      DefInStep(id, p, syms, P, V, at, TrackLoads(rhs, P, t), ResolveLoads(rhs, V, u));
    case StoreAt(id, v, sub, rhs) =>
      LoadsInStep(rhs, syms, P, V, at.top, t, u);
      var t1, u1 := TrackLoads(rhs, P, t), ResolveLoads(rhs, V, u);
      LoadsInStep(sub, syms, P, V, at.top, t1, u1);
      DefInStep(id, Whole(v), syms, P, V, at, TrackLoads(sub, P, t1), ResolveLoads(sub, V, u1));
    case Call(id, _, args, ret) =>
      LoadsInStep(args, syms, P, V, at.top, t, u);
      if ret.Some? {
        DefInStep(id, Whole(ret.value), syms, P, V, at, TrackLoads(args, P, t), ResolveLoads(args, V, u));
      }
  }

  lemma {:induction false} IfResolves(s: Stmt, syms: seq<Sym>, P: Plan, V: View, at: Point, mem: Mem, t: Trail,
                                      u: Roots, fuel: nat, ops: Ops)
    requires s.If? && Prepared(s, syms, P, V, at) && InStep(syms, at.top, t, u)
    ensures var t', u' := Track(s, syms, P, mem, t, fuel, ops), Resolve(s, V, mem, u, fuel, ops);
            SameLog(t', u') && (Run(s, mem, fuel, ops).Next? ==> Tied(syms, After(s, P, at).top, t'.last, u'.orig))
    decreases fuel, s, 0
  {
    hide PhisNamed, PhiRoots, Tied, Relatives, ExprPlanned, UsesNamed, DistinctPlaces;
    var pa := After(s.thn, P, at);
    var p1 := Point(at.top, pa.next);
    var pb := After(s.els, P, p1);
    LoadsInStep(s.cond, syms, P, V, at.top, t, u);
    var t1, u1 := TrackLoads(s.cond, P, t), ResolveLoads(s.cond, V, u);
    AfterBelow(s.thn, P, at);
    AfterBelow(s.els, P, p1);
    forall i | 0 <= i < |syms| && i !in ListAt(P.phi, s.id)
      ensures pa.top[i] == at.top[i] && pb.top[i] == at.top[i]
    {
      assert i !in Elems(ListAt(P.phi, s.id));
      UndefinedKept(s.thn, syms, P, at, i);
      UndefinedKept(s.els, syms, P, p1, i);
    }
    if Eval(s.cond, mem, ops).bits != 0 {
      LoadsResolve(s.thn, syms, P, V, at, mem, t1, u1, fuel, ops);
      if Run(s.thn, mem, fuel, ops).Next? {
        PhisTied(s.id, 0, syms, P, V, pa.top, pb.top, pa.top, at.top, pb.next,
                 Track(s.thn, syms, P, mem, t1, fuel, ops).last, Resolve(s.thn, V, mem, u1, fuel, ops).orig);
      }
    } else {
      LoadsResolve(s.els, syms, P, V, p1, mem, t1, u1, fuel, ops);
      if Run(s.els, mem, fuel, ops).Next? {
        PhisTied(s.id, 1, syms, P, V, pa.top, pb.top, pb.top, at.top, pb.next,
                 Track(s.els, syms, P, mem, t1, fuel, ops).last, Resolve(s.els, V, mem, u1, fuel, ops).orig);
      }
    }
  }

  lemma {:induction false} EnterResolves(s: Stmt, syms: seq<Sym>, P: Plan, V: View, at: Point, mem: Mem, t: Trail,
                                         u: Roots, fuel: nat, ops: Ops)
    requires s.Loop? && Prepared(s, syms, P, V, at) && InStep(syms, at.top, t, u)
    ensures var t', u' := Track(s, syms, P, mem, t, fuel, ops), Resolve(s, V, mem, u, fuel, ops);
            SameLog(t', u') && (Run(s, mem, fuel, ops).Next? ==> Tied(syms, After(s, P, at).top, t'.last, u'.orig))
    decreases fuel, s, 0, 1
  {
    hide PhisNamed, PhiRoots, Tied, ExprPlanned, UsesNamed, DistinctPlaces, NoDup, Elems, Defs, PushAll;
    var topI := Set(at.top, SymOf(P, s.init.id), at.next);
    IvInStep(s.init, s.iv, syms, P, V, at, t, u);
    var t1, u1 := TrackDef(s.init.id, syms, P, TrackLoads(s.init, P, t)), ResolveIv(s.init, V, u);
    LoopFacts(s, syms, P, V, at);
    PhisTied(s.id, 0, syms, P, V, topI, AtBackEdge(s, P, at).top, topI, topI, at.next + 1, t1.last, u1.orig);
    LoopResolves(s, syms, P, V, at, Apply(mem, Effect(Whole(s.iv), Eval(s.init, mem, ops))), t1,
                 ResolvePhis(s.id, 0, V, u1), fuel, ops);
  }

  /** From the header on. */
  lemma {:induction false} LoopResolves(s: Stmt, syms: seq<Sym>, P: Plan, V: View, at: Point, mem: Mem, t: Trail,
                                        u: Roots, fuel: nat, ops: Ops)
    requires s.Loop? && Prepared(s, syms, P, V, at) && InStep(syms, AtHeader(s, P, at).top, t, u)
    ensures var t', u' := TrackLoop(s, syms, P, mem, t, fuel, ops), ResolveLoop(s, V, mem, u, fuel, ops);
            && SameLog(t', u')
            && (RunLoop(s, mem, fuel, ops).Next? ==> Tied(syms, AtHeader(s, P, at).top, t'.last, u'.orig))
    decreases fuel, s, 0, 0
  {
    hide PhisNamed, PhiRoots, Tied, ExprPlanned, UsesNamed, DistinctPlaces, NoDup, Elems, Defs, PushAll, RootPlanned,
         Relatives, RootUsesNamed, DefNamed;
    var head := AtHeader(s, P, at);
    if fuel > 0 {
      LoadsInStep(s.cmp, syms, P, V, head.top, t, u);
      var t1, u1 := TrackLoads(s.cmp, P, t), ResolveLoads(s.cmp, V, u);
      if Eval(s.cmp, mem, ops).bits != 0 {
        HeaderBelow(s, P, at);
        LoadsResolve(s.body, syms, P, V, head, mem, t1, u1, fuel, ops);
        var r := Run(s.body, mem, fuel, ops);
        if r.Next? {
          var t2, u2 := Track(s.body, syms, P, mem, t1, fuel, ops), Resolve(s.body, V, mem, u1, fuel, ops);
          BackEdgeTied(s, syms, P, V, at, t2, u2);
          LoopResolves(s, syms, P, V, at, Apply(r.mem, Effect(Whole(s.iv), Eval(s.step, r.mem, ops))),
                       TrackDef(s.step.id, syms, P, TrackLoads(s.step, P, t2)),
                       ResolvePhis(s.id, 1, V, ResolveIv(s.step, V, u2)), fuel - 1, ops);
        }
      }
    }
  }

  /** The step, and the phis on the back edge. */
  lemma BackEdgeTied(s: Stmt, syms: seq<Sym>, P: Plan, V: View, at: Point, t: Trail, u: Roots)
    requires s.Loop? && Prepared(s, syms, P, V, at) && InStep(syms, After(s.body, P, AtHeader(s, P, at)).top, t, u)
    ensures InStep(syms, AtHeader(s, P, at).top, TrackDef(s.step.id, syms, P, TrackLoads(s.step, P, t)),
                   ResolvePhis(s.id, 1, V, ResolveIv(s.step, V, u)))
  {
    hide PhisNamed, PhiRoots, Tied, ExprPlanned, UsesNamed, DistinctPlaces, NoDup, Elems, Defs, PushAll, Relatives,
         RootUsesNamed, DefNamed, Below;
    var head := AtHeader(s, P, at);
    var end, topI, back := After(s.body, P, head), Set(at.top, SymOf(P, s.init.id), at.next), AtBackEdge(s, P, at);
    LoopFacts(s, syms, P, V, at);
    HeaderBelow(s, P, at);
    AfterBelow(s.body, P, head);
    IvInStep(s.step, s.iv, syms, P, V, end, t, u);
    BackEdgeKept(s, syms, P, at);
    var t1, u1 := TrackDef(s.step.id, syms, P, TrackLoads(s.step, P, t)), ResolveIv(s.step, V, u);
    PhisTied(s.id, 1, syms, P, V, topI, back.top, back.top, topI, at.next + 1, t1.last, u1.orig);
  }

  // ----- functions --------------------------------------------------------------------

  /** Before the entry nothing has a definer; the entry chis come from the entry as well. */
  lemma FuncLoadsResolve(f: Func, syms: seq<Sym>, P: Plan, V: View, args: seq<Val>, mem: Mem, fuel: nat, ops: Ops)
    requires |args| == |f.formals|
    requires FuncPlanned(f, syms, P) && FuncRenamed(f, P, V, |syms|) && NoBareRoots(f.body)
    ensures var mem1 := Bind(f.formals, args, mem);
            var t := Track(f.body, syms, P, mem1, Trail(seq(|syms|, _ => Entry), 0, []), fuel, ops);
            t.log == Resolve(f.body, V, mem1, Roots(map[], 0, []), fuel, ops).log
  {
    hide Planned, Renamed, ChisNamed, PushAll;
    var at := BodyPoint(f, P, |syms|);
    PushAllBelow(ListAt(P.chi, f.id), ZeroPoint(|syms|).top, |syms|);
    LoadsResolve(f.body, syms, P, V, at, Bind(f.formals, args, mem), Trail(seq(|syms|, _ => Entry), 0, []),
                 Roots(map[], 0, []), fuel, ops);
  }
}
