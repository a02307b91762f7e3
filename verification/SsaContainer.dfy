/** The container that owns the SSA tables. */
module SsaContainers {
  import opened Basics
  import opened Ir
  import opened SsaTables

  datatype State = NoSsa | SymCreate | MuChiGen | PhiInsert | Rename | Ssa

  /** The lists of node `id` have the symbols the plan says. */
  ghost predicate FitsAt(P: Plan, V: View, id: nat) {
    && MuSyms(ListAt(V.mu, id)) == ListAt(P.mu, id)
    && ChiSyms(ListAt(V.chi, id)) == ListAt(P.chi, id)
    && PhiSyms(ListAt(V.phi, id)) == ListAt(P.phi, id)
  }

  ghost predicate Fits(P: Plan, V: View) {
    forall id :: FitsAt(P, V, id)
  }

  /** Some version of `sym` has the number. */
  ghost predicate HasNumber(vers: seq<Ver>, sym: nat, number: nat) {
    exists v :: 0 <= v < |vers| && vers[v].sym == sym && vers[v].number == Some(number)
  }

  /** The numbers of a symbol are 1, 2, ... up to `lastVer` of it, in the order of its versions. */
  ghost predicate Numbered(vers: seq<Ver>, lastVer: seq<nat>) {
    && (forall v :: 0 <= v < |vers| ==>
          && vers[v].sym < |lastVer|
          && (vers[v].number.Some? ==> 1 <= vers[v].number.value <= lastVer[vers[v].sym]))
    && (forall v, w :: 0 <= v < w < |vers| && vers[v].sym == vers[w].sym
                       && vers[v].number.Some? && vers[w].number.Some? ==>
          vers[v].number.value < vers[w].number.value)
    && (forall s: nat, n: nat :: s < |lastVer| && 1 <= n <= lastVer[s] ==> HasNumber(vers, s, n))
  }

  function PlanOf(nodeSym: map<nat, nat>, mu: map<nat, seq<Mu>>, chi: map<nat, seq<Chi>>,
                  phi: map<nat, seq<Phi>>): Plan {
    Plan(nodeSym,
         map i | i in mu :: MuSyms(mu[i]),
         map i | i in chi :: ChiSyms(chi[i]),
         map i | i in phi :: PhiSyms(phi[i]))
  }

  lemma PlanOfLists(nodeSym: map<nat, nat>, mu: map<nat, seq<Mu>>, chi: map<nat, seq<Chi>>,
                    phi: map<nat, seq<Phi>>, id: nat)
    ensures var P := PlanOf(nodeSym, mu, chi, phi);
            && ListAt(P.mu, id) == MuSyms(ListAt(mu, id))
            && ListAt(P.chi, id) == ChiSyms(ListAt(chi, id))
            && ListAt(P.phi, id) == PhiSyms(ListAt(phi, id))
  {
  }

  class SsaContainer {
    var syms: seq<Sym>
    var vers: seq<Ver>
    var ivSyms: set<nat>
    var nodeSym: map<nat, nat>
    var nodeVer: map<nat, nat>
    var mu: map<nat, seq<Mu>>
    var chi: map<nat, seq<Chi>>
    var phi: map<nat, seq<Phi>>
    var state: State

    constructor ()
      ensures syms == [] && vers == [] && ivSyms == {} && nodeSym == map[] && nodeVer == map[]
      ensures mu == map[] && chi == map[] && phi == map[] && state == NoSsa
    {
      syms, vers, ivSyms, nodeSym, nodeVer := [], [], {}, map[], map[];
      mu, chi, phi, state := map[], map[], map[], NoSsa;
    }

    /** The annotations as they are now. */
    function Now(): View
      reads this
    {
      View(vers, nodeVer, mu, chi, phi)
    }

    /** The lists and node symbols as they are now. */
    function PlanNow(): Plan
      reads this
    {
      PlanOf(nodeSym, mu, chi, phi)
    }

    /** A new version of `sym`; its number and definer are set afterwards. */
    method NewVer(sym: nat) returns (ver: nat)
      modifies this`vers
      ensures ver == |old(vers)| && vers == old(vers) + [Ver(sym, None, Unknown)]
    {
      ver := |vers|;
      vers := vers + [Ver(sym, None, Unknown)];
    }

    method SetDef(ver: nat, number: nat, def: Def)
      requires ver < |vers|
      modifies this`vers
      ensures vers == old(vers)[ver := old(vers)[ver].(number := Some(number), def := def)]
    {
      vers := vers[ver := vers[ver].(number := Some(number))];
      vers := vers[ver := vers[ver].(def := def)];
    }

    /** A new symbol for `p`, with its zero version. */
    method NewSym(p: Place) returns (sym: nat)
      modifies this`syms, this`vers
      ensures sym == |old(syms)|
      ensures syms == old(syms) + [Sym(p, None, None, None, |old(vers)|, false)]
      ensures vers == old(vers) + [Ver(sym, None, Unknown)]
    {
      sym := |syms|;
      var zero := NewVer(sym);
      syms := syms + [Sym(p, None, None, None, zero, false)];
    }
  }

  lemma PlanNowFits(c: SsaContainer)
    ensures Fits(c.PlanNow(), c.Now())
  {
    forall id ensures FitsAt(c.PlanNow(), c.Now(), id) {
    }
  }

  /** A new version that takes the next number of its symbol keeps the numbering. */
  lemma NumberedExtends(vers: seq<Ver>, lastVer: seq<nat>, sym: nat, def: Def)
    requires Numbered(vers, lastVer) && sym < |lastVer|
    ensures Numbered(vers + [Ver(sym, Some(lastVer[sym] + 1), def)], lastVer[sym := lastVer[sym] + 1])
  {
    var vers', last' := vers + [Ver(sym, Some(lastVer[sym] + 1), def)], lastVer[sym := lastVer[sym] + 1];
    assert vers'[|vers|] == Ver(sym, Some(lastVer[sym] + 1), def);
    forall s: nat, n: nat | s < |last'| && 1 <= n <= last'[s] ensures HasNumber(vers', s, n) {
      if n <= lastVer[s] {
        assert HasNumber(vers, s, n);
        var v :| 0 <= v < |vers| && vers[v].sym == s && vers[v].number == Some(n);
        assert vers'[v] == vers[v];
      }
    }
  }
}
