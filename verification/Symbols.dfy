/** The symbol table: one symbol per place, parts linked under the whole variable. */
module Symbols {
  import opened Basics
  import opened Ir
  import opened SsaTables
  import opened Plans

  type SymIds = map<Place, nat>

  /** The symbols reached from `c` along sibling links. */
  function Chain(syms: seq<Sym>, c: Option<nat>): set<nat>
    decreases if c.Some? then c.value + 1 else 0
  {
    if c.None? || c.value >= |syms| then {}
    else
      var next := syms[c.value].sibling;
      {c.value} + (if next.Some? && next.value < c.value then Chain(syms, next) else {})
  }

  /** Links to a part of `v` that is older than `i`, or to nothing. */
  ghost predicate OlderPart(syms: seq<Sym>, link: Option<nat>, v: Var, i: nat) {
    link.Some? ==> link.value < i && link.value < |syms|
                   && syms[link.value].place.v == v && syms[link.value].place.ix.At?
  }

  /** Shape of one symbol: a part hangs under the symbol of its variable, which has no parent. */
  ghost predicate SymShape(syms: seq<Sym>, ids: SymIds, i: nat)
    requires i < |syms|
  {
    var s := syms[i];
    && s.place in ids && ids[s.place] == i && s.zeroVer == i
    && if s.place.ix.At? then
         && s.realOcc && Whole(s.place.v) in ids && s.parent == Some(ids[Whole(s.place.v)])
         && s.child == None && OlderPart(syms, s.sibling, s.place.v, i)
       else
         s.parent == None && s.sibling == None && OlderPart(syms, s.child, s.place.v, |syms|)
  }

  /** The part `i` is on the chain of its variable. */
  ghost predicate Linked(syms: seq<Sym>, ids: SymIds, i: nat)
    requires i < |syms|
  {
    && Whole(syms[i].place.v) in ids && ids[Whole(syms[i].place.v)] < |syms|
    && i in Chain(syms, syms[ids[Whole(syms[i].place.v)]].child)
  }

  ghost predicate SymsValid(syms: seq<Sym>, ids: SymIds) {
    && (forall p :: p in ids ==> ids[p] < |syms| && syms[ids[p]].place == p)
    && (forall i :: 0 <= i < |syms| ==> SymShape(syms, ids, i))
    && (forall i :: 0 <= i < |syms| && syms[i].place.ix.At? ==> Linked(syms, ids, i))
  }

  /** The places with a real occurrence. */
  ghost function RealPlaces(syms: seq<Sym>): set<Place> {
    set i | 0 <= i < |syms| && syms[i].realOcc :: syms[i].place
  }

  function WithWholes(ps: set<Place>): set<Place> {
    ps + (set p | p in ps :: Whole(p.v))
  }

  lemma WholesUnion(a: set<Place>, b: set<Place>)
    ensures WithWholes(a + b) == WithWholes(a) + WithWholes(b)
  {
  }

  lemma WholesOne(p: Place)
    ensures WithWholes({p}) == {p, Whole(p.v)} && WithWholes({}) == {}
  {
  }

  lemma {:induction false} ChainFrame(syms: seq<Sym>, syms': seq<Sym>, c: Option<nat>)
    requires |syms| <= |syms'| && (c.Some? ==> c.value < |syms|)
    requires forall j :: 0 <= j < |syms| ==> syms'[j].sibling == syms[j].sibling
    ensures Chain(syms', c) == Chain(syms, c)
    decreases if c.Some? then c.value + 1 else 0
  {
    if c.Some? {
      var next := syms[c.value].sibling;
      if next.Some? && next.value < c.value {
        ChainFrame(syms, syms', next);
      }
    }
  }

  /** A chain of parts of `v` holds parts of `v` only. */
  lemma {:induction false} ChainParts(syms: seq<Sym>, ids: SymIds, c: Option<nat>, v: Var, i: nat)
    requires SymsValid(syms, ids) && OlderPart(syms, c, v, |syms|) && i in Chain(syms, c)
    ensures i < |syms| && syms[i].place.v == v && syms[i].place.ix.At?
    decreases if c.Some? then c.value + 1 else 0
  {
    if i != c.value {
      assert SymShape(syms, ids, c.value);
      ChainParts(syms, ids, syms[c.value].sibling, v, i);
    }
  }

  lemma ValidDistinct(syms: seq<Sym>, ids: SymIds)
    requires SymsValid(syms, ids)
    ensures DistinctPlaces(syms)
  {
    forall i, j | 0 <= i < j < |syms| ensures syms[i].place != syms[j].place {
      assert SymShape(syms, ids, i) && SymShape(syms, ids, j);
    }
  }

  // ----- entering a place -----------------------------------------------------

  /** Marking an existing symbol as really occurring. */
  lemma MarkRealValid(syms: seq<Sym>, ids: SymIds, i: nat)
    requires SymsValid(syms, ids) && i < |syms|
    ensures var syms' := syms[i := syms[i].(realOcc := true)];
            SymsValid(syms', ids) && RealPlaces(syms') == RealPlaces(syms) + {syms[i].place}
  {
    var syms' := syms[i := syms[i].(realOcc := true)];
    forall j | 0 <= j < |syms'| ensures SymShape(syms', ids, j) {
      assert SymShape(syms, ids, j);
    }
    forall j | 0 <= j < |syms'| && syms'[j].place.ix.At?
      ensures Linked(syms', ids, j)
    {
      assert SymShape(syms, ids, j) && Linked(syms, ids, j);
      var r := ids[Whole(syms[j].place.v)];
      assert SymShape(syms, ids, r);
      ChainFrame(syms, syms', syms[r].child);
    }
    forall p | p in RealPlaces(syms) + {syms[i].place} ensures p in RealPlaces(syms') {
      if p != syms[i].place {
        var j :| 0 <= j < |syms| && syms[j].realOcc && syms[j].place == p;
        assert syms'[j].realOcc;
      } else {
        assert syms'[i].realOcc && syms'[i].place == p;
      }
    }
  }

  /** The table with a new symbol for the whole variable of `p`. */
  lemma NewWholeValid(syms: seq<Sym>, ids: SymIds, p: Place, realOcc: bool)
    requires SymsValid(syms, ids) && p !in ids && p.ix.NoIndex?
    ensures var syms' := syms + [Sym(p, None, None, None, |syms|, realOcc)];
            SymsValid(syms', ids[p := |syms|])
            && RealPlaces(syms') == RealPlaces(syms) + (if realOcc then {p} else {})
  {
    var n := |syms|;
    var syms' := syms + [Sym(p, None, None, None, n, realOcc)];
    var ids' := ids[p := n];
    forall j | 0 <= j < |syms'| ensures SymShape(syms', ids', j) {
      if j < n { assert SymShape(syms, ids, j); }
    }
    forall j | 0 <= j < |syms'| && syms'[j].place.ix.At?
      ensures Linked(syms', ids', j)
    {
      assert SymShape(syms, ids, j) && Linked(syms, ids, j);
      var r := ids[Whole(syms[j].place.v)];
      assert SymShape(syms, ids, r);
      ChainFrame(syms, syms', syms[r].child);
    }
    RealGrows(syms, syms', n, realOcc);
  }

  /** The table with a new part, linked in front of the other parts of its variable. */
  lemma NewPartValid(syms: seq<Sym>, ids: SymIds, p: Place)
    requires SymsValid(syms, ids) && p !in ids && p.ix.At? && Whole(p.v) in ids
    ensures var r := ids[Whole(p.v)];
            var syms' := syms[r := syms[r].(child := Some(|syms|))]
                         + [Sym(p, Some(r), syms[r].child, None, |syms|, true)];
            SymsValid(syms', ids[p := |syms|]) && RealPlaces(syms') == RealPlaces(syms) + {p}
  {
    var n, r := |syms|, ids[Whole(p.v)];
    var first := syms[r].child;
    var syms' := syms[r := syms[r].(child := Some(n))] + [Sym(p, Some(r), first, None, n, true)];
    var ids' := ids[p := n];
    assert SymShape(syms, ids, r);
    forall j | 0 <= j < |syms'| ensures SymShape(syms', ids', j) {
      if j < n { assert SymShape(syms, ids, j); }
    }
    assert n in Chain(syms', Some(n));
    ChainFrame(syms, syms', first);
    assert Chain(syms', Some(n)) == {n} + Chain(syms, first);
    forall j | 0 <= j < |syms'| && syms'[j].place.ix.At?
      ensures Linked(syms', ids', j)
    {
      if j < n {
        assert SymShape(syms, ids, j) && Linked(syms, ids, j);
        var q := ids[Whole(syms[j].place.v)];
        assert SymShape(syms, ids, q);
        if q != r {
          ChainFrame(syms, syms', syms[q].child);
        }
      }
    }
    RealGrows(syms, syms', n, true);
  }

  lemma RealGrows(syms: seq<Sym>, syms': seq<Sym>, n: nat, realOcc: bool)
    requires n == |syms| && |syms'| == n + 1 && syms'[n].realOcc == realOcc
    requires forall j :: 0 <= j < n ==> syms'[j].place == syms[j].place && syms'[j].realOcc == syms[j].realOcc
    ensures RealPlaces(syms') == RealPlaces(syms) + (if realOcc then {syms'[n].place} else {})
  {
    forall p | p in RealPlaces(syms) + (if realOcc then {syms'[n].place} else {}) ensures p in RealPlaces(syms') {
      if p in RealPlaces(syms) {
        var j :| 0 <= j < |syms| && syms[j].realOcc && syms[j].place == p;
        assert syms'[j].realOcc && syms'[j].place == p;
      }
    }
    forall p | p in RealPlaces(syms') ensures p in RealPlaces(syms) + (if realOcc then {syms'[n].place} else {}) {
      var j :| 0 <= j < |syms'| && syms'[j].realOcc && syms'[j].place == p;
      if j < n { assert syms[j].realOcc && syms[j].place == p; }
    }
  }

  // ----- the symbols overlapping a symbol -------------------------------------

  /** `i` with everything the recursive walk from it reaches: its parts, or its older siblings. */
  function Family(syms: seq<Sym>, i: nat): set<nat> {
    if i >= |syms| then {}
    else if syms[i].place.ix.At? then Chain(syms, Some(i))
    else {i} + Chain(syms, syms[i].child)
  }

  /** The parts of a variable are exactly the chain from the child link of its symbol. */
  lemma PartsOfWhole(syms: seq<Sym>, ids: SymIds, r: nat)
    requires SymsValid(syms, ids) && r < |syms| && syms[r].place.ix.NoIndex?
    ensures Relatives(syms, r) == Chain(syms, syms[r].child)
  {
    assert SymShape(syms, ids, r);
    forall i | i in Relatives(syms, r) ensures i in Chain(syms, syms[r].child) {
      assert SymShape(syms, ids, i);
      assert syms[i].place.ix.At?;
      assert Linked(syms, ids, i);
      assert Whole(syms[i].place.v) == syms[r].place;
    }
    forall i | i in Chain(syms, syms[r].child) ensures i in Relatives(syms, r) {
      ChainParts(syms, ids, syms[r].child, syms[r].place.v, i);
      assert SymShape(syms, ids, i);
    }
  }

  /** A part overlaps, besides itself, only the whole variable. */
  lemma WholeOfPart(syms: seq<Sym>, ids: SymIds, i: nat)
    requires SymsValid(syms, ids) && i < |syms| && syms[i].place.ix.At?
    ensures syms[i].parent.Some? && syms[i].parent.value < |syms| && syms[i].child == None
    ensures syms[syms[i].parent.value].parent == None
    ensures Relatives(syms, i) == if syms[syms[i].parent.value].realOcc then {syms[i].parent.value} else {}
  {
    assert SymShape(syms, ids, i);
    var r := syms[i].parent.value;
    assert SymShape(syms, ids, r);
    forall j | j in Relatives(syms, i) ensures j == r {
      assert SymShape(syms, ids, j);
      assert syms[j].place == syms[r].place;
    }
    if syms[r].realOcc {
      assert r in Relatives(syms, i);
    }
  }
}
