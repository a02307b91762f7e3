/**
  The verifier: it replays the renaming traversal on finished tables, with its
  own stacks, and checks what it finds.  It reports success on exactly the
  tables that `Checked` describes, whoever filled them in; once a check has
  failed it goes no further.
 */
module SsaVerify {
  import opened Basics
  import opened Ir
  import opened SsaTables
  import opened SsaContainers
  import opened Plans
  import opened VersionStacks
  import opened Renaming
  import opened SsaChecks

  class SimpleVerifierCtx {
    const cont: SsaContainer
    const stack: VersionStack
    /** No check has failed so far. */
    var ok: bool

    constructor (cont: SsaContainer, stack: VersionStack)
      ensures this.cont == cont && this.stack == stack && ok
    {
      this.cont, this.stack, ok := cont, stack, true;
    }

    ghost predicate Valid(P: Plan)
      reads this, cont, stack
    {
      |stack.stk| == |cont.syms| && AllHaveTop(stack.stk) && cont.nodeSym == P.nodeSym
    }

    ghost function Tops(): seq<nat>
      reads this, stack
    {
      TopsOf(stack.stk)
    }

    /** Only versions were pushed, on whatever stacks. */
    ghost predicate OnlyPushed(t: Stacks, t': Stacks) {
      exists d :: Grown(t, t', d)
    }

    lemma PushedOn(t0: Stacks, t1: Stacks, t2: Stacks)
      requires OnlyPushed(t0, t1) && OnlyPushed(t1, t2)
      ensures OnlyPushed(t0, t2)
    {
      var d, e :| Grown(t0, t1, d) && Grown(t1, t2, e);
      GrownTrans(t0, t1, t2, d, e);
    }

    // ----- uses and definitions -------------------------------------------------

    method PushRes(sym: nat, res: Option<nat>, ghost P: Plan)
      requires Valid(P) && sym < |cont.syms| && res.Some?
      modifies stack`stk
      ensures Valid(P) && Tops() == SetRes(old(Tops()), sym, res)
      ensures OnlyPushed(old(stack.stk), stack.stk)
    {
      stack.PushVer(sym, res.value);
    }

    method VerifyUse(id: nat, ghost P: Plan)
      requires ok && Valid(P)
      modifies this`ok
      ensures ok <==> UseTyped(id, P, cont.Now(), |cont.syms|)
    {
      ok := id in cont.nodeSym && cont.nodeSym[id] < |cont.syms|
            && VersionOf(cont.vers, VerAt(cont.nodeVer, id), cont.nodeSym[id]);
    }

    method VerifyDef(id: nat, ghost P: Plan)
      requires ok && Valid(P)
      modifies this`ok, stack`stk
      ensures Valid(P) && (ok <==> DefChecked(id, P, cont.Now(), |cont.syms|))
      ensures ok ==> Tops() == BehindDef(id, P, cont.Now(), old(Tops()))
      ensures ok ==> OnlyPushed(old(stack.stk), stack.stk)
    {
      ok := id in cont.nodeSym && cont.nodeSym[id] < |cont.syms|
            && DefinedBy(cont.vers, VerAt(cont.nodeVer, id), cont.nodeSym[id], ByStmt(id));
      if ok {
        PushRes(cont.nodeSym[id], VerAt(cont.nodeVer, id), P);
      }
    }

    method VerifyExpr(e: Expr, ghost P: Plan)
      requires ok && Valid(P)
      modifies this`ok
      ensures ok <==> UsesTyped(e, P, cont.Now(), |cont.syms|)
      decreases e
    {
      match e
      case Leaf(_, _) =>
      case Node(_, _, l, r) =>
        VerifyExpr(l, P);
        if ok {
          VerifyExpr(r, P);
        }
      case Load(id, _) => VerifyUse(id, P);
      case LoadAt(id, _, sub) =>
        VerifyExpr(sub, P);
        if ok {
          VerifyUse(id, P);
        }
      case TableAt(_, _, _) =>
    }

    // ----- lists ----------------------------------------------------------------

    /** One chi: its operand must be the current version, its result is pushed. */
    method VerifyChi(id: nat, k: nat, c: Chi, ghost P: Plan)
      requires ok && Valid(P)
      modifies this`ok, stack`stk
      ensures Valid(P) && (ok <==> ChiChecked(id, k, c, cont.Now(), old(Tops())))
      ensures ok ==> Tops() == SetRes(old(Tops()), c.sym, c.res)
      ensures ok ==> OnlyPushed(old(stack.stk), stack.stk)
    {
      if c.sym >= |cont.syms| {
        ok := false;
        return;
      }
      var cur := stack.TopVerId(c.sym);
      ok := VersionOf(cont.vers, c.opnd, c.sym) && c.opnd == Some(cur);
      ok := ok && DefinedBy(cont.vers, c.res, c.sym, ByChi(id, k)) && c.defStmt == Some(id);
      if ok {
        PushRes(c.sym, c.res, P);
      }
    }

    /** The first `k` chis have passed their checks and their results are pushed. */
    ghost predicate ChisDone(id: nat, k: nat, top: seq<nat>, t0: Stacks, P: Plan)
      reads this, cont, stack
    {
      var list := ListAt(cont.chi, id);
      && ok && Valid(P) && k <= |list| && ChisUpTo(id, cont.Now(), top, k)
      && Tops() == BehindChis(list[..k], top) && OnlyPushed(t0, stack.stk)
    }

    method VerifyNextChi(id: nat, k: nat, ghost top: seq<nat>, ghost t0: Stacks, ghost P: Plan)
      requires ChisDone(id, k, top, t0, P) && k < |ListAt(cont.chi, id)|
      modifies this`ok, stack`stk
      ensures Valid(P) && (if ok then ChisDone(id, k + 1, top, t0, P) else !ChisChecked(id, cont.Now(), top))
    {
      hide TopOf, TopsOf, AllHaveTop, OnlyPushed, ChiChecked, ChisChecked, ChisUpTo, SetRes, BehindChis;
      ghost var t := stack.stk;
      var list := ListAt(cont.chi, id);
      ChisNext(id, cont.Now(), top, k);
      VerifyChi(id, k, list[k], P);
      if ok {
        PushedOn(t0, t, stack.stk);
      }
    }

    method VerifyChiList(id: nat, ghost P: Plan)
      requires ok && Valid(P)
      modifies this`ok, stack`stk
      ensures Valid(P) && (ok <==> ChisChecked(id, cont.Now(), old(Tops())))
      ensures ok ==> Tops() == BehindChis(ListAt(cont.chi, id), old(Tops()))
      ensures ok ==> OnlyPushed(old(stack.stk), stack.stk)
    {
      NothingPushed(stack.stk);
      hide TopOf, TopsOf, AllHaveTop, OnlyPushed, ChisChecked, ChisUpTo, BehindChis;
      ghost var top, t0 := Tops(), stack.stk;
      ChisNone(id, cont.Now(), top);
      var k := 0;
      while k < |ListAt(cont.chi, id)|
        invariant 0 <= k <= |ListAt(cont.chi, id)| && ChisDone(id, k, top, t0, P)
      {
        VerifyNextChi(id, k, top, t0, P);
        if !ok {
          return;
        }
        k := k + 1;
      }
      ChisAll(id, cont.Now(), top);
    }

    lemma NothingPushed(t: Stacks)
      ensures OnlyPushed(t, t)
    {
      assert Grown(t, t, {});
    }

    /** Operand `k` of every phi must be the current version. */
    method VerifyPhiOpnd(id: nat, k: nat, ghost P: Plan)
      requires ok && Valid(P)
      modifies this`ok
      ensures ok <==> OpndsChecked(id, k, cont.Now(), Tops())
    {
      hide TopOf;
      var list := ListAt(cont.phi, id);
      var j := 0;
      while j < |list|
        invariant 0 <= j <= |list| && ok
        invariant forall i :: 0 <= i < j ==> OpndChecked(list[i], k, cont.Now(), Tops())
      {
        var p := list[j];
        if p.sym >= |cont.syms| {
          ok := false;
        } else {
          var cur := stack.TopVerId(p.sym);
          ok := k < |p.opnd| && VersionOf(cont.vers, p.opnd[k], p.sym) && p.opnd[k] == Some(cur);
        }
        if !ok {
          assert !OpndChecked(list[j], k, cont.Now(), Tops());
          return;
        }
        j := j + 1;
      }
    }

    /** The result of one phi is pushed. */
    method VerifyPhi(id: nat, k: nat, p: Phi, ghost P: Plan)
      requires ok && Valid(P)
      modifies this`ok, stack`stk
      ensures Valid(P) && (ok <==> PhiChecked(id, k, p, cont.Now(), |cont.syms|))
      ensures ok ==> Tops() == SetRes(old(Tops()), p.sym, p.res)
      ensures ok ==> OnlyPushed(old(stack.stk), stack.stk)
    {
      ok := p.sym < |cont.syms| && DefinedBy(cont.vers, p.res, p.sym, ByPhi(id, k)) && p.defStmt == Some(id);
      if ok {
        PushRes(p.sym, p.res, P);
      }
    }

    /** The first `k` phis have passed their checks and their results are pushed. */
    ghost predicate PhisDone(id: nat, k: nat, top: seq<nat>, t0: Stacks, P: Plan)
      reads this, cont, stack
    {
      var list := ListAt(cont.phi, id);
      && ok && Valid(P) && k <= |list| && PhisUpTo(id, cont.Now(), |cont.syms|, k)
      && Tops() == BehindPhis(list[..k], top) && OnlyPushed(t0, stack.stk)
    }

    method VerifyNextPhi(id: nat, k: nat, ghost top: seq<nat>, ghost t0: Stacks, ghost P: Plan)
      requires PhisDone(id, k, top, t0, P) && k < |ListAt(cont.phi, id)|
      modifies this`ok, stack`stk
      ensures Valid(P) && (if ok then PhisDone(id, k + 1, top, t0, P) else !PhisChecked(id, cont.Now(), |cont.syms|))
    {
      hide TopOf, TopsOf, AllHaveTop, OnlyPushed, PhiChecked, PhisChecked, PhisUpTo, SetRes, BehindPhis;
      ghost var t := stack.stk;
      var list := ListAt(cont.phi, id);
      PhisNext(id, cont.Now(), top, |cont.syms|, k);
      VerifyPhi(id, k, list[k], P);
      if ok {
        PushedOn(t0, t, stack.stk);
      }
    }

    method VerifyPhiList(id: nat, ghost P: Plan)
      requires ok && Valid(P)
      modifies this`ok, stack`stk
      ensures Valid(P) && (ok <==> PhisChecked(id, cont.Now(), |cont.syms|))
      ensures ok ==> Tops() == BehindPhis(ListAt(cont.phi, id), old(Tops()))
      ensures ok ==> OnlyPushed(old(stack.stk), stack.stk)
    {
      NothingPushed(stack.stk);
      hide TopOf, TopsOf, AllHaveTop, OnlyPushed, PhisChecked, PhisUpTo, BehindPhis;
      ghost var top, t0 := Tops(), stack.stk;
      PhisNone(id, cont.Now(), top, |cont.syms|);
      var k := 0;
      while k < |ListAt(cont.phi, id)|
        invariant 0 <= k <= |ListAt(cont.phi, id)| && PhisDone(id, k, top, t0, P)
      {
        VerifyNextPhi(id, k, top, t0, P);
        if !ok {
          return;
        }
        k := k + 1;
      }
      PhisAll(id, cont.Now(), |cont.syms|);
    }

    method VerifyMuList(id: nat, ghost P: Plan)
      requires ok && Valid(P)
      modifies this`ok
      ensures ok <==> MusChecked(id, cont.Now(), Tops())
    {
      hide TopOf;
      var list := ListAt(cont.mu, id);
      var j := 0;
      while j < |list|
        invariant 0 <= j <= |list| && ok
        invariant forall i :: 0 <= i < j ==> MuChecked(list[i], cont.Now(), Tops())
      {
        var m := list[j];
        if m.sym >= |cont.syms| {
          ok := false;
        } else {
          var cur := stack.TopVerId(m.sym);
          ok := VersionOf(cont.vers, m.opnd, m.sym) && m.opnd == Some(cur);
        }
        if !ok {
          assert !MuChecked(list[j], cont.Now(), Tops());
          return;
        }
        j := j + 1;
      }
    }

    // ----- marks ----------------------------------------------------------------

    /** Marks the symbols that have a phi at `id`; they must exist. */
    method PushMark(id: nat, ghost P: Plan)
      requires ok && Valid(P) && NoDup(PhiSyms(ListAt(cont.phi, id)))
      modifies this`ok, stack`stk
      ensures Valid(P) && Tops() == old(Tops()) && (ok <==> MarksChecked(id, cont.Now(), |cont.syms|))
      ensures ok ==> stack.stk == Marked(old(stack.stk), PhiSyms(ListAt(cont.phi, id)), id)
    {
      var syms := PhiSyms(ListAt(cont.phi, id));
      MarksAre(ListAt(cont.phi, id), |cont.syms|);
      ok := forall k :: 0 <= k < |syms| ==> syms[k] < |cont.syms|;
      if ok {
        MarkedTops(stack.stk, syms, id);
        stack.PushMark(syms, id);
      }
    }

    /** Pops them again; what was pushed for other symbols stays. */
    method PopMark(id: nat, ghost base: Stacks, ghost P: Plan)
      requires Valid(P) && NoDup(PhiSyms(ListAt(cont.phi, id))) && MarksChecked(id, cont.Now(), |cont.syms|)
      requires |base| == |cont.syms| && AllHaveTop(base)
      requires OnlyPushed(Marked(base, PhiSyms(ListAt(cont.phi, id)), id), stack.stk)
      modifies stack`stk
      ensures Valid(P) && Tops() == Popped(id, cont.Now(), TopsOf(base), old(Tops())) && OnlyPushed(base, stack.stk)
    {
      var syms := PhiSyms(ListAt(cont.phi, id));
      ghost var t := stack.stk;
      ghost var d :| Grown(Marked(base, syms, id), t, d);
      MarksAre(ListAt(cont.phi, id), |cont.syms|);
      forall k | 0 <= k < |syms| ensures var s := Stripped(t[syms[k]]); s != [] && s[|s| - 1] == Mark(id) {
        PopReady(base, t, syms, id, syms[k], d);
      }
      stack.PopMark(syms, id);
      PopLeaves(base, t, stack.stk, syms, id, d);
    }

    // ----- statements -----------------------------------------------------------

    method VerifyStmt(s: Stmt, ghost P: Plan)
      requires ok && Valid(P) && PhisApart(s, cont.phi)
      modifies this`ok, stack`stk
      ensures Valid(P) && (ok <==> Checked(s, P, cont.Now(), old(Tops())))
      ensures ok ==> Tops() == Behind(s, P, cont.Now(), old(Tops()))
      ensures ok ==> OnlyPushed(old(stack.stk), stack.stk)
      decreases s, 1
    {
      NothingPushed(stack.stk);
      hide NoDup, TopOf, TopsOf, AllHaveTop, OnlyPushed, BehindStore, StoreChecked, MusChecked;
      match s
      case Skip =>
      case Seq(a, b) =>
        VerifyStmt(a, P);
        if ok {
          ghost var t := stack.stk;
          VerifyStmt(b, P);
          PushedOrNot(old(stack.stk), t, stack.stk);
        }
      case Retv(id, kid, _) =>
        VerifyUse(kid, P);
        if ok {
          VerifyMuList(id, P);
        }
      case If(_, _, _, _) => VerifyIf(s, P);
      case Loop(_, _, _, _, _, _) => VerifyDoLoop(s, P);
      case _ => VerifyDefStmt(s, P);
    }

    lemma PushedOrNot(t0: Stacks, t1: Stacks, t2: Stacks)
      requires OnlyPushed(t0, t1)
      ensures OnlyPushed(t1, t2) ==> OnlyPushed(t0, t2)
    {
      if OnlyPushed(t1, t2) {
        PushedOn(t0, t1, t2);
      }
    }

    method VerifyDefStmt(s: Stmt, ghost P: Plan)
      requires s.Store? || s.StoreAt? || s.Call?
      requires ok && Valid(P)
      modifies this`ok, stack`stk
      ensures Valid(P) && (ok <==> Checked(s, P, cont.Now(), old(Tops())))
      ensures ok ==> Tops() == Behind(s, P, cont.Now(), old(Tops()))
      ensures ok ==> OnlyPushed(old(stack.stk), stack.stk)
    {
      NothingPushed(stack.stk);
      hide TopOf, TopsOf, AllHaveTop, OnlyPushed, BehindStore, StoreChecked;
      match s
      case Store(id, _, rhs) =>
        VerifyExpr(rhs, P);
        if ok {
          VerifyDefAndChi(id, P);
        }
      case StoreAt(id, _, sub, rhs) =>
        VerifyExpr(rhs, P);
        if ok {
          VerifyExpr(sub, P);
        }
        if ok {
          VerifyDefAndChi(id, P);
        }
      case Call(id, _, args, ret) =>
        VerifyExpr(args, P);
        if ok && ret.Some? {
          VerifyDefAndChi(id, P);
        }
    }

    method VerifyDefAndChi(id: nat, ghost P: Plan)
      requires ok && Valid(P)
      modifies this`ok, stack`stk
      ensures Valid(P) && (ok <==> StoreChecked(id, P, cont.Now(), old(Tops())))
      ensures ok ==> Tops() == BehindStore(id, P, cont.Now(), old(Tops()))
      ensures ok ==> OnlyPushed(old(stack.stk), stack.stk)
    {
      hide TopOf, TopsOf, AllHaveTop, OnlyPushed, ChisChecked, BehindChis, BehindDef, DefChecked;
      VerifyDef(id, P);
      if ok {
        ghost var t := stack.stk;
        VerifyChiList(id, P);
        PushedOrNot(old(stack.stk), t, stack.stk);
      }
    }

    /** A branch under marks, then its operands of the phis; afterwards the marked stacks are as before. */
    method VerifyBranch(id: nat, b: Stmt, k: nat, ghost P: Plan)
      requires ok && Valid(P) && PhisApart(b, cont.phi) && NoDup(PhiSyms(ListAt(cont.phi, id)))
      modifies this`ok, stack`stk
      ensures Valid(P) && (ok <==> BranchChecked(id, b, k, P, cont.Now(), old(Tops())))
      ensures ok ==> Tops() == BehindBranch(id, b, P, cont.Now(), old(Tops()))
      ensures ok ==> OnlyPushed(old(stack.stk), stack.stk)
      decreases b, 2
    {
      hide NoDup, TopOf, TopsOf, OnlyPushed, Marked, Checked, Behind, OpndsChecked, MarksChecked, Popped, PhiSyms,
           PhisApart;
      ghost var t0 := stack.stk;
      PushMark(id, P);
      if ok {
        VerifyStmt(b, P);
      }
      if ok {
        VerifyPhiOpnd(id, k, P);
      }
      if ok {
        PopMark(id, t0, P);
      }
    }

    method VerifyIf(s: Stmt, ghost P: Plan)
      requires s.If? && PhisApart(s, cont.phi)
      requires ok && Valid(P)
      modifies this`ok, stack`stk
      ensures Valid(P) && (ok <==> Checked(s, P, cont.Now(), old(Tops())))
      ensures ok ==> Tops() == Behind(s, P, cont.Now(), old(Tops()))
      ensures ok ==> OnlyPushed(old(stack.stk), stack.stk)
      decreases s, 0
    {
      hide NoDup, TopOf, TopsOf, AllHaveTop, OnlyPushed, BranchChecked, BehindBranch, PhisChecked, UsesTyped,
           BehindPhis;
      ghost var t0 := stack.stk;
      VerifyExpr(s.cond, P);
      if ok {
        VerifyBranch(s.id, s.thn, 0, P);
      }
      ghost var t1 := stack.stk;
      if ok {
        VerifyBranch(s.id, s.els, 1, P);
        PushedOrNot(t0, t1, stack.stk);
      }
      ghost var t2 := stack.stk;
      if ok {
        VerifyPhiList(s.id, P);
        PushedOrNot(t0, t2, stack.stk);
      }
    }

    method VerifyDoLoop(s: Stmt, ghost P: Plan)
      requires s.Loop? && PhisApart(s, cont.phi)
      requires ok && Valid(P)
      modifies this`ok, stack`stk
      ensures Valid(P) && (ok <==> Checked(s, P, cont.Now(), old(Tops())))
      ensures ok ==> Tops() == Behind(s, P, cont.Now(), old(Tops()))
      ensures ok ==> OnlyPushed(old(stack.stk), stack.stk)
      decreases s, 0
    {
      hide NoDup, TopOf, TopsOf, AllHaveTop, OnlyPushed, HeaderChecked, BodyChecked, UsesTyped, Header, BackEdge,
           Popped;
      ghost var t0 := stack.stk;
      VerifyExpr(s.init, P);
      if ok {
        VerifyHeader(s, P);
      }
      ghost var t1 := stack.stk;
      if ok {
        VerifyExpr(s.cmp, P);
      }
      if ok {
        VerifyBody(s, P);
        PushedOrNot(t0, t1, stack.stk);
      }
    }

    /** The induction variable is set, operand 0 of the phis checked, and their results pushed. */
    method VerifyHeader(s: Stmt, ghost P: Plan)
      requires s.Loop?
      requires ok && Valid(P)
      modifies this`ok, stack`stk
      ensures Valid(P) && (ok <==> HeaderChecked(s, P, cont.Now(), old(Tops())))
      ensures ok ==> Tops() == Header(s, P, cont.Now(), old(Tops()))
      ensures ok ==> OnlyPushed(old(stack.stk), stack.stk)
    {
      hide TopOf, TopsOf, AllHaveTop, OnlyPushed, OpndsChecked, PhisChecked, DefChecked, BehindDef, BehindPhis;
      VerifyDef(s.init.id, P);
      ghost var t1 := stack.stk;
      if ok {
        VerifyPhiOpnd(s.id, 0, P);
      }
      if ok {
        VerifyPhiList(s.id, P);
        PushedOrNot(old(stack.stk), t1, stack.stk);
      }
    }

    /** The body under marks, the step, operand 1 of the phis, and the marks popped. */
    method VerifyBody(s: Stmt, ghost P: Plan)
      requires s.Loop? && PhisApart(s.body, cont.phi) && NoDup(PhiSyms(ListAt(cont.phi, s.id)))
      requires ok && Valid(P)
      modifies this`ok, stack`stk
      ensures Valid(P) && (ok <==> BodyChecked(s, P, cont.Now(), old(Tops())))
      ensures ok ==> Tops() == Popped(s.id, cont.Now(), old(Tops()), BackEdge(s, P, cont.Now(), old(Tops())))
      ensures ok ==> OnlyPushed(old(stack.stk), stack.stk)
      decreases s.body, 2
    {
      hide NoDup, TopOf, TopsOf, OnlyPushed, Marked, Checked, Behind, OpndsChecked, MarksChecked, Popped, PhiSyms,
           UsesTyped, DefChecked, BehindDef, PhisApart;
      ghost var t0 := stack.stk;
      PushMark(s.id, P);
      ghost var tm := stack.stk;
      if ok {
        VerifyStmt(s.body, P);
      }
      ghost var t1 := stack.stk;
      if ok {
        VerifyExpr(s.step, P);
      }
      if ok {
        VerifyDef(s.step.id, P);
        PushedOrNot(tm, t1, stack.stk);
      }
      if ok {
        VerifyPhiOpnd(s.id, 1, P);
      }
      if ok {
        PopMark(s.id, t0, P);
      }
    }

    /** The whole replay; when no check fails it ends with the zero versions only. */
    method VerifyFunc(f: Func, ghost P: Plan)
      requires ok && cont.nodeSym == P.nodeSym && stack.stk == [] && stack.lastVer == []
      requires PhisApart(f.body, cont.phi)
      requires forall i :: 0 <= i < |cont.syms| ==> cont.syms[i].zeroVer == i
      modifies this`ok, stack
      ensures ok <==> FuncChecked(f, P, cont.Now(), |cont.syms|)
      ensures ok ==> |stack.stk| == |cont.syms| && forall i :: 0 <= i < |cont.syms| ==> stack.stk[i] == [Version(i)]
    {
      hide NoDup, TopOf, AllVersions, Grown, Checked, ChisChecked, BehindChis, UseTyped, PhisApart;
      var zeros := seq(|cont.syms|, i requires 0 <= i < |cont.syms| reads cont => cont.syms[i].zeroVer);
      assert zeros == ZeroPoint(|cont.syms|).top;
      stack.Initialize(zeros, f.id);
      assert stack.stk == Initial(zeros, f.id);
      InitialTops(zeros, f.id);
      ghost var t0 := stack.stk;
      VerifyChiList(f.id, P);
      if !ok {
        return;
      }
      ghost var t1 := stack.stk;
      var i := 0;
      while i < |f.formals|
        invariant 0 <= i <= |f.formals| && Valid(P) && ok && stack.stk == t1
        invariant forall j :: 0 <= j < i ==> UseTyped(f.formals[j].id, P, cont.Now(), |cont.syms|)
      {
        assert f.formals[i] in f.formals;
        VerifyUse(f.formals[i].id, P);
        if !ok {
          return;
        }
        i := i + 1;
      }
      VerifyStmt(f.body, P);
      if ok {
        PushedOn(t0, t1, stack.stk);
        stack.Finalize(zeros, f.id);
      }
    }
  }

  /** At each statement a symbol has one phi at most. */
  ghost predicate PhisApart(s: Stmt, phi: map<nat, seq<Phi>>) {
    match s
    case Seq(a, b) => PhisApart(a, phi) && PhisApart(b, phi)
    case If(id, _, a, b) => NoDup(PhiSyms(ListAt(phi, id))) && PhisApart(a, phi) && PhisApart(b, phi)
    case Loop(id, _, _, _, _, b) => NoDup(PhiSyms(ListAt(phi, id))) && PhisApart(b, phi)
    case _ => true
  }

  lemma {:induction false} PlannedApart(s: Stmt, syms: seq<Sym>, P: Plan, V: View)
    requires PhisPlanned(s, syms, P) && Fits(P, V)
    ensures PhisApart(s, V.phi)
  {
    match s
    case Seq(a, b) =>
      PlannedApart(a, syms, P, V);
      PlannedApart(b, syms, P, V);
    case If(id, _, a, b) =>
      assert FitsAt(P, V, id);
      PlannedApart(a, syms, P, V);
      PlannedApart(b, syms, P, V);
    case Loop(id, _, _, _, _, b) =>
      assert FitsAt(P, V, id);
      PlannedApart(b, syms, P, V);
    case _ =>
  }

  lemma MarksAre(list: seq<Phi>, n: nat)
    ensures (forall k :: 0 <= k < |PhiSyms(list)| ==> PhiSyms(list)[k] < n) <==> forall p :: p in list ==> p.sym < n
  {
    if forall p :: p in list ==> p.sym < n {
      forall k | 0 <= k < |list| ensures PhiSyms(list)[k] < n {
        assert list[k] in list;
      }
    } else {
      var p :| p in list && p.sym >= n;
      var k :| 0 <= k < |list| && list[k] == p;
      assert PhiSyms(list)[k] == p.sym;
    }
  }

  ghost predicate ChisUpTo(id: nat, V: View, top: seq<nat>, k: nat)
    requires k <= |ListAt(V.chi, id)|
  {
    forall j :: 0 <= j < k ==> ChiChecked(id, j, ListAt(V.chi, id)[j], V, BehindChis(ListAt(V.chi, id)[..j], top))
  }

  lemma ChisNone(id: nat, V: View, top: seq<nat>)
    ensures BehindChis(ListAt(V.chi, id)[..0], top) == top && ChisUpTo(id, V, top, 0)
  {
  }

  lemma ChisNext(id: nat, V: View, top: seq<nat>, k: nat)
    requires k < |ListAt(V.chi, id)| && ChisUpTo(id, V, top, k)
    ensures var c := ListAt(V.chi, id)[k];
            var cur := BehindChis(ListAt(V.chi, id)[..k], top);
            && BehindChis(ListAt(V.chi, id)[..k + 1], top) == SetRes(cur, c.sym, c.res)
            && (ChiChecked(id, k, c, V, cur) ==> ChisUpTo(id, V, top, k + 1))
            && (!ChiChecked(id, k, c, V, cur) ==> !ChisChecked(id, V, top))
  {
    var list := ListAt(V.chi, id);
    assert list[..k + 1][..k] == list[..k];
  }

  lemma ChisAll(id: nat, V: View, top: seq<nat>)
    ensures var n := |ListAt(V.chi, id)|;
            && ChisUpTo(id, V, top, n) == ChisChecked(id, V, top)
            && ListAt(V.chi, id)[..n] == ListAt(V.chi, id)
  {
  }

  ghost predicate PhisUpTo(id: nat, V: View, n: nat, k: nat)
    requires k <= |ListAt(V.phi, id)|
  {
    forall j :: 0 <= j < k ==> PhiChecked(id, j, ListAt(V.phi, id)[j], V, n)
  }

  lemma PhisNone(id: nat, V: View, top: seq<nat>, n: nat)
    ensures BehindPhis(ListAt(V.phi, id)[..0], top) == top && PhisUpTo(id, V, n, 0)
  {
  }

  lemma PhisNext(id: nat, V: View, top: seq<nat>, n: nat, k: nat)
    requires k < |ListAt(V.phi, id)| && PhisUpTo(id, V, n, k)
    ensures var p := ListAt(V.phi, id)[k];
            && BehindPhis(ListAt(V.phi, id)[..k + 1], top) ==
                 SetRes(BehindPhis(ListAt(V.phi, id)[..k], top), p.sym, p.res)
            && (PhiChecked(id, k, p, V, n) ==> PhisUpTo(id, V, n, k + 1))
            && (!PhiChecked(id, k, p, V, n) ==> !PhisChecked(id, V, n))
  {
    var list := ListAt(V.phi, id);
    assert list[..k + 1][..k] == list[..k];
  }

  lemma PhisAll(id: nat, V: View, n: nat)
    ensures PhisUpTo(id, V, n, |ListAt(V.phi, id)|) == PhisChecked(id, V, n)
    ensures ListAt(V.phi, id)[..|ListAt(V.phi, id)|] == ListAt(V.phi, id)
  {
  }
}
