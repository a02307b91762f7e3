/**
  Copying statement and node trees inside one container.  New nodes and
  statements are taken from the end of the tables, so an identifier is fresh
  when it is not below the old length.
 */
module Cloning {
  import opened Basics

  /** A node; `data` stands for everything that is copied as it is, `owner` for the parent statement of a block. */
  datatype NodeData =
    | ExprNode(op: nat, data: nat, kids: seq<nat>)
    | BlockNode(data: nat, owner: Option<nat>, begin: nat, end: nat)

  /** A statement with its root node, or the sentinel behind the last statement of a block. */
  datatype StmtData = StmtData(op: nat, data: nat, kids: seq<nat>,
                               prev: Option<nat>, next: Option<nat>, parent: Option<nat>)

  datatype Tables = Tables(nodes: seq<NodeData>, stmts: seq<StmtData>)

  /** A tree, and where the tables hold it. */
  datatype Tree =
    | Expr(id: nat, op: nat, data: nat, kids: seq<Tree>)
    | Stmt(id: nat, op: nat, data: nat, kids: seq<Tree>)
    | Block(id: nat, end: nat, data: nat, kids: seq<Tree>)

  function Ids(kids: seq<Tree>): (r: seq<nat>)
    ensures |r| == |kids|
  {
    seq(|kids|, i requires 0 <= i < |kids| => kids[i].id)
  }

  /** What stands behind statement `i` of a block: the next statement or the sentinel. */
  function NextOf(t: Tree, i: nat): nat
    requires t.Block? && i < |t.kids|
  {
    if i + 1 < |t.kids| then t.kids[i + 1].id else t.end
  }

  function BeginOf(t: Tree): nat
    requires t.Block?
  {
    if t.kids == [] then t.end else t.kids[0].id
  }

  /** Read from the root along children and `next` links, the tables hold `t`. */
  ghost predicate Reads(T: Tables, t: Tree) {
    match t
    case Expr(id, op, data, kids) =>
      && id < |T.nodes| && T.nodes[id] == ExprNode(op, data, Ids(kids))
      && forall i :: 0 <= i < |kids| ==> !kids[i].Stmt? && Reads(T, kids[i])
    case Stmt(id, op, data, kids) =>
      && id < |T.stmts| && T.stmts[id].op == op && T.stmts[id].data == data && T.stmts[id].kids == Ids(kids)
      && forall i :: 0 <= i < |kids| ==> !kids[i].Stmt? && Reads(T, kids[i])
    case Block(id, end, data, kids) =>
      && id < |T.nodes| && T.nodes[id].BlockNode? && T.nodes[id].data == data
      && T.nodes[id].end == end < |T.stmts| && T.nodes[id].begin == BeginOf(t)
      && forall i :: 0 <= i < |kids| ==>
           && kids[i].Stmt? && kids[i].id != end && Reads(T, kids[i])
           && T.stmts[kids[i].id].next == Some(NextOf(t, i))
  }

  function PrevOf(T: Tables, x: nat): Option<nat> {
    if x < |T.stmts| then T.stmts[x].prev else None
  }

  function ParentOf(T: Tables, x: nat): Option<nat> {
    if x < |T.stmts| then T.stmts[x].parent else None
  }

  function OwnerOf(T: Tables, x: nat): Option<nat> {
    if x < |T.nodes| && T.nodes[x].BlockNode? then T.nodes[x].owner else None
  }

  /** The links back: `prev`, the block of each statement, the statement of each block below one. */
  ghost predicate Linked(T: Tables, t: Tree) {
    match t
    case Expr(_, _, _, kids) => forall i :: 0 <= i < |kids| ==> Linked(T, kids[i])
    case Stmt(id, _, _, kids) =>
      forall i :: 0 <= i < |kids| ==> Linked(T, kids[i]) && (kids[i].Block? ==> OwnerOf(T, kids[i].id) == Some(id))
    case Block(id, end, _, kids) =>
      && ParentOf(T, end) == Some(id) && (kids != [] ==> PrevOf(T, end) == Some(kids[|kids| - 1].id))
      && forall i :: 0 <= i < |kids| ==>
           && Linked(T, kids[i]) && ParentOf(T, kids[i].id) == Some(id)
           && PrevOf(T, kids[i].id) == if i == 0 then None else Some(kids[i - 1].id)
  }

  /** Equal but for the identifiers. */
  ghost predicate SameTree(t: Tree, c: Tree) {
    && t.data == c.data && |t.kids| == |c.kids|
    && (t.Expr? ==> c.Expr? && t.op == c.op) && (t.Stmt? ==> c.Stmt? && t.op == c.op) && (t.Block? ==> c.Block?)
    && forall i :: 0 <= i < |t.kids| ==> SameTree(t.kids[i], c.kids[i])
  }

  ghost function Nodes(t: Tree): set<nat> {
    (if t.Stmt? then {} else {t.id}) + set i, x | 0 <= i < |t.kids| && x in Nodes(t.kids[i]) :: x
  }

  ghost function Stmts(t: Tree): set<nat> {
    (if t.Stmt? then {t.id} else if t.Block? then {t.end} else {}) +
    set i, x | 0 <= i < |t.kids| && x in Stmts(t.kids[i]) :: x
  }

  ghost predicate Apart(a: Tree, b: Tree) {
    Nodes(a) !! Nodes(b) && Stmts(a) !! Stmts(b)
  }

  /** No node and no statement occurs twice. */
  ghost predicate Distinct(t: Tree) {
    && (forall i :: 0 <= i < |t.kids| ==>
          && Distinct(t.kids[i])
          && (!t.Stmt? ==> t.id !in Nodes(t.kids[i])) && (t.Stmt? ==> t.id !in Stmts(t.kids[i]))
          && (t.Block? ==> t.end !in Stmts(t.kids[i])))
    && forall i, j :: 0 <= i < j < |t.kids| ==> Apart(t.kids[i], t.kids[j])
  }

  // ----- frames -----------------------------------------------------------------

  ghost predicate Extends(T: Tables, T': Tables) {
    T.nodes <= T'.nodes && T.stmts <= T'.stmts
  }

  lemma {:induction false} ReadsOn(T: Tables, T': Tables, t: Tree)
    requires Reads(T, t) && Extends(T, T')
    ensures Reads(T', t)
  {
    forall i | 0 <= i < |t.kids| ensures Reads(T', t.kids[i]) {
      ReadsOn(T, T', t.kids[i]);
    }
  }

  /** The tables agree on everything in `t`. */
  ghost predicate Agree(T: Tables, T': Tables, t: Tree) {
    && (forall x :: x in Nodes(t) && x < |T.nodes| ==> x < |T'.nodes| && T'.nodes[x] == T.nodes[x])
    && (forall x :: x in Stmts(t) && x < |T.stmts| ==> x < |T'.stmts| && T'.stmts[x] == T.stmts[x])
  }

  lemma KidAgrees(T: Tables, T': Tables, t: Tree, i: nat)
    requires i < |t.kids| && Agree(T, T', t)
    ensures Agree(T, T', t.kids[i])
  {
    assert Nodes(t.kids[i]) <= Nodes(t) && Stmts(t.kids[i]) <= Stmts(t);
  }

  lemma OwnIds(t: Tree)
    ensures (!t.Stmt? ==> t.id in Nodes(t)) && (t.Stmt? ==> t.id in Stmts(t)) && (t.Block? ==> t.end in Stmts(t))
  {
  }

  /** The entry of the root is the same. */
  ghost predicate RootSame(T: Tables, T': Tables, t: Tree) {
    && (t.Stmt? ==> t.id < |T.stmts| && t.id < |T'.stmts| && T'.stmts[t.id] == T.stmts[t.id])
    && (!t.Stmt? ==> t.id < |T.nodes| && t.id < |T'.nodes| && T'.nodes[t.id] == T.nodes[t.id])
    && (t.Block? ==> t.end < |T.stmts| && t.end < |T'.stmts| && T'.stmts[t.end] == T.stmts[t.end])
  }

  lemma RootAgrees(T: Tables, T': Tables, t: Tree)
    requires Reads(T, t) && Agree(T, T', t)
    ensures RootSame(T, T', t)
  {
    OwnIds(t);
  }

  lemma {:induction false} RootReads(T: Tables, T': Tables, t: Tree)
    requires Reads(T, t) && RootSame(T, T', t)
    requires forall i :: 0 <= i < |t.kids| ==> RootSame(T, T', t.kids[i]) && Reads(T', t.kids[i])
    ensures Reads(T', t)
  {
    match t
    case Expr(_, _, _, _) =>
    case Stmt(_, _, _, _) =>
    case Block(_, _, _, _) =>
  }

  lemma {:induction false} RootLinked(T: Tables, T': Tables, t: Tree)
    requires Linked(T, t) && RootSame(T, T', t)
    requires forall i :: 0 <= i < |t.kids| ==> RootSame(T, T', t.kids[i]) && Linked(T', t.kids[i])
    requires t.Block? ==> forall i :: 0 <= i < |t.kids| ==> t.kids[i].Stmt?
    ensures Linked(T', t)
  {
    match t
    case Expr(_, _, _, _) =>
    case Stmt(_, _, _, _) =>
    case Block(_, end, _, kids) =>
      if kids != [] {
        assert RootSame(T, T', kids[|kids| - 1]);
      }
  }

  lemma {:induction false} LinkedOn(T: Tables, T': Tables, t: Tree)
    requires Reads(T, t) && Linked(T, t) && Agree(T, T', t)
    ensures Reads(T', t) && Linked(T', t)
  {
    hide Agree, RootSame;
    forall i | 0 <= i < |t.kids|
      ensures RootSame(T, T', t.kids[i]) && Reads(T', t.kids[i]) && Linked(T', t.kids[i])
    {
      KidAgrees(T, T', t, i);
      LinkedOn(T, T', t.kids[i]);
      RootAgrees(T, T', t.kids[i]);
    }
    RootAgrees(T, T', t);
    RootReads(T, T', t);
    RootLinked(T, T', t);
  }

  // ----- copies -----------------------------------------------------------------

  /** `c` is a copy of `t`, complete, linked, and made of entries from `n` and `s` on. */
  ghost predicate Copy(T: Tables, t: Tree, c: Tree, n: nat, s: nat) {
    && SameTree(t, c) && Reads(T, c) && Linked(T, c) && Distinct(c)
    && (forall x :: x in Nodes(c) ==> n <= x < |T.nodes|)
    && (forall x :: x in Stmts(c) ==> s <= x < |T.stmts|)
  }

  ghost predicate Copies(T: Tables, ts: seq<Tree>, cs: seq<Tree>, n: nat, s: nat) {
    && |cs| <= |ts|
    && (forall i :: 0 <= i < |cs| ==> Copy(T, ts[i], cs[i], n, s))
    && (forall i, j :: 0 <= i < j < |cs| ==> Apart(cs[i], cs[j]))
  }

  /** Entries from `n` and `s` on that were there are the same. */
  ghost predicate Kept(T: Tables, T': Tables, n: nat, s: nat) {
    && |T.nodes| <= |T'.nodes| && |T.stmts| <= |T'.stmts|
    && (forall x :: n <= x < |T.nodes| ==> T'.nodes[x] == T.nodes[x])
    && (forall x :: s <= x < |T.stmts| ==> T'.stmts[x] == T.stmts[x])
  }

  lemma CopyKept(T: Tables, T': Tables, t: Tree, c: Tree, n: nat, s: nat)
    requires Copy(T, t, c, n, s) && Kept(T, T', n, s)
    ensures Copy(T', t, c, n, s)
  {
    LinkedOn(T, T', c);
  }

  lemma CopiesKept(T: Tables, T': Tables, ts: seq<Tree>, cs: seq<Tree>, n: nat, s: nat)
    requires Copies(T, ts, cs, n, s) && Kept(T, T', n, s)
    ensures Copies(T', ts, cs, n, s)
  {
    forall i | 0 <= i < |cs| ensures Copy(T', ts[i], cs[i], n, s) {
      CopyKept(T, T', ts[i], cs[i], n, s);
    }
  }

  /** One more copy, made of entries that were not there before. */
  lemma OneMoreCopy(T: Tables, T': Tables, ts: seq<Tree>, cs: seq<Tree>, c: Tree, n: nat, s: nat)
    requires Copies(T, ts, cs, n, s) && Kept(T, T', n, s) && |cs| < |ts| && n <= |T.nodes| && s <= |T.stmts|
    requires Copy(T', ts[|cs|], c, |T.nodes|, |T.stmts|)
    ensures Copies(T', ts, cs + [c], n, s)
  {
    CopiesKept(T, T', ts, cs, n, s);
    forall i | 0 <= i < |cs| ensures Apart(cs[i], c) {
      assert Copy(T, ts[i], cs[i], n, s);
    }
  }

  // ----- statements of a block under construction --------------------------------

  /** Links of a statement may change without its tree changing. */
  lemma Relinked(T: Tables, T': Tables, t: Tree, c: Tree, n: nat, s: nat)
    requires Copy(T, t, c, n, s) && c.Stmt? && |T.nodes| <= |T'.nodes| && |T.stmts| <= |T'.stmts|
    requires forall x :: x in Nodes(c) ==> T'.nodes[x] == T.nodes[x]
    requires forall x :: x in Stmts(c) && x != c.id ==> T'.stmts[x] == T.stmts[x]
    requires T'.stmts[c.id].op == T.stmts[c.id].op && T'.stmts[c.id].data == T.stmts[c.id].data
    requires T'.stmts[c.id].kids == T.stmts[c.id].kids
    ensures Copy(T', t, c, n, s)
  {
    forall i | 0 <= i < |c.kids| ensures Agree(T, T', c.kids[i]) {
      assert Nodes(c.kids[i]) <= Nodes(c) && Stmts(c.kids[i]) <= Stmts(c);
    }
    forall i | 0 <= i < |c.kids|
      ensures Reads(T', c.kids[i]) && Linked(T', c.kids[i])
      ensures c.kids[i].Block? ==> T'.nodes[c.kids[i].id] == T.nodes[c.kids[i].id]
    {
      LinkedOn(T, T', c.kids[i]);
      OwnIds(c.kids[i]);
    }
  }

  lemma OtherRoot(T: Tables, ts: seq<Tree>, cs: seq<Tree>, n: nat, s: nat, i: nat, j: nat)
    requires Copies(T, ts, cs, n, s) && i < |cs| && j < |cs| && i != j && cs[j].Stmt?
    ensures cs[j].id !in Stmts(cs[i])
  {
    OwnIds(cs[j]);
    assert Apart(cs[if i < j then i else j], cs[if i < j then j else i]);
  }

  /** Links of listed statements may change without their trees changing. */
  lemma CopiesRelinked(T: Tables, T': Tables, ts: seq<Tree>, cs: seq<Tree>, n: nat, s: nat)
    requires Copies(T, ts, cs, n, s) && forall i :: 0 <= i < |cs| ==> cs[i].Stmt?
    requires |T.nodes| <= |T'.nodes| && |T.stmts| <= |T'.stmts|
    requires forall x :: n <= x < |T.nodes| ==> T'.nodes[x] == T.nodes[x]
    requires forall x :: s <= x < |T.stmts| ==>
               && T'.stmts[x].op == T.stmts[x].op && T'.stmts[x].data == T.stmts[x].data
               && T'.stmts[x].kids == T.stmts[x].kids
               && (x !in Ids(cs) ==> T'.stmts[x] == T.stmts[x])
    ensures Copies(T', ts, cs, n, s)
  {
    hide SameTree, Reads, Linked, Distinct, Nodes, Stmts, Apart;
    forall i | 0 <= i < |cs| ensures Copy(T', ts[i], cs[i], n, s) {
      OwnIds(cs[i]);
      forall x | x in Stmts(cs[i]) && x != cs[i].id ensures x !in Ids(cs) {
        forall j | 0 <= j < |cs| ensures cs[j].id != x {
          if j != i {
            OtherRoot(T, ts, cs, n, s, i, j);
          }
        }
      }
      Relinked(T, T', ts[i], cs[i], n, s);
    }
  }

  lemma {:induction false} ReownedReads(T: Tables, T': Tables, c: Tree)
    requires c.Block? && Reads(T, c) && T'.stmts == T.stmts && |T'.nodes| == |T.nodes|
    requires T'.nodes[c.id].BlockNode? && T'.nodes[c.id] == T.nodes[c.id].(owner := T'.nodes[c.id].owner)
    requires forall i :: 0 <= i < |c.kids| ==> Reads(T', c.kids[i])
    ensures Reads(T', c)
  {
  }

  lemma {:induction false} ReownedLinked(T: Tables, T': Tables, c: Tree)
    requires c.Block? && Linked(T, c) && T'.stmts == T.stmts
    requires forall i :: 0 <= i < |c.kids| ==> Linked(T', c.kids[i])
    ensures Linked(T', c)
  {
  }

  lemma KidOf(T: Tables, c: Tree, i: nat)
    requires c.Block? && i < |c.kids| && Reads(T, c) && Linked(T, c) && Distinct(c)
    ensures Reads(T, c.kids[i]) && Linked(T, c.kids[i]) && c.id !in Nodes(c.kids[i])
  {
    hide Nodes, Stmts;
  }

  lemma ReownedKid(T: Tables, T': Tables, c: Tree, i: nat, owner: Option<nat>)
    requires c.Block? && i < |c.kids| && Reads(T, c) && Linked(T, c) && Distinct(c) && T'.stmts == T.stmts
    requires c.id < |T.nodes| && T.nodes[c.id].BlockNode?
    requires T'.nodes == T.nodes[c.id := T.nodes[c.id].(owner := owner)]
    ensures Reads(T', c.kids[i]) && Linked(T', c.kids[i])
  {
    hide Reads, Linked, Distinct, Nodes, Stmts;
    KidOf(T, c, i);
    LinkedOn(T, T', c.kids[i]);
  }

  /** The owner of a block may change without its tree changing. */
  lemma Reowned(T: Tables, T': Tables, t: Tree, c: Tree, n: nat, s: nat, owner: Option<nat>)
    requires Copy(T, t, c, n, s) && c.Block? && T'.stmts == T.stmts
    requires c.id < |T.nodes| && T.nodes[c.id].BlockNode?
    requires T'.nodes == T.nodes[c.id := T.nodes[c.id].(owner := owner)]
    ensures Copy(T', t, c, n, s)
  {
    hide Reads, Linked, Distinct, SameTree, Nodes, Stmts;
    forall i | 0 <= i < |c.kids| ensures Reads(T', c.kids[i]) && Linked(T', c.kids[i]) {
      ReownedKid(T, T', c, i, owner);
    }
    ReownedReads(T, T', c);
    ReownedLinked(T, T', c);
  }

  // ----- blocks under construction ----------------------------------------------

  /** The links of statement `i` of a block. */
  ghost predicate LinksAt(T: Tables, c: Tree, i: nat)
    requires c.Block? && i < |c.kids|
  {
    && c.kids[i].Stmt? && c.kids[i].id < |T.stmts| && c.kids[i].id != c.end
    && ParentOf(T, c.kids[i].id) == Some(c.id) && T.stmts[c.kids[i].id].next == Some(NextOf(c, i))
    && PrevOf(T, c.kids[i].id) == if i == 0 then None else Some(c.kids[i - 1].id)
  }

  /** The entry of the block, its sentinel, and the links of its statements. */
  ghost predicate ListLinked(T: Tables, c: Tree, owner: Option<nat>)
    requires c.Block?
  {
    && c.id < |T.nodes| && T.nodes[c.id] == BlockNode(c.data, owner, BeginOf(c), c.end)
    && ParentOf(T, c.end) == Some(c.id) && c.end < |T.stmts|
    && (c.kids != [] ==> PrevOf(T, c.end) == Some(c.kids[|c.kids| - 1].id))
    && forall i :: 0 <= i < |c.kids| ==> LinksAt(T, c, i)
  }

  ghost predicate Building(T: Tables, t: Tree, c: Tree, owner: Option<nat>, n: nat, s: nat) {
    && t.Block? && c.Block? && c.data == t.data && c.id < n <= |T.nodes| && c.end < s <= |T.stmts|
    && Copies(T, t.kids, c.kids, n, s) && ListLinked(T, c, owner)
  }

  lemma {:induction false} BlockReads(T: Tables, c: Tree, owner: Option<nat>)
    requires c.Block? && ListLinked(T, c, owner) && forall i :: 0 <= i < |c.kids| ==> Reads(T, c.kids[i])
    ensures Reads(T, c)
  {
    forall i | 0 <= i < |c.kids|
      ensures c.kids[i].Stmt? && c.kids[i].id != c.end && c.kids[i].id < |T.stmts|
      ensures T.stmts[c.kids[i].id].next == Some(NextOf(c, i))
    {
      assert LinksAt(T, c, i);
    }
  }

  lemma {:induction false} BlockLinked(T: Tables, c: Tree, owner: Option<nat>)
    requires c.Block? && ListLinked(T, c, owner) && forall i :: 0 <= i < |c.kids| ==> Linked(T, c.kids[i])
    ensures Linked(T, c) && OwnerOf(T, c.id) == owner
  {
    forall i | 0 <= i < |c.kids|
      ensures ParentOf(T, c.kids[i].id) == Some(c.id)
      ensures PrevOf(T, c.kids[i].id) == if i == 0 then None else Some(c.kids[i - 1].id)
    {
      assert LinksAt(T, c, i);
    }
  }

  lemma KidsHold(T: Tables, ts: seq<Tree>, cs: seq<Tree>, n: nat, s: nat)
    requires Copies(T, ts, cs, n, s)
    ensures forall i :: 0 <= i < |cs| ==>
              SameTree(ts[i], cs[i]) && Reads(T, cs[i]) && Linked(T, cs[i]) && Distinct(cs[i])
    ensures forall i, x :: 0 <= i < |cs| && x in Nodes(cs[i]) ==> n <= x < |T.nodes|
    ensures forall i, x :: 0 <= i < |cs| && x in Stmts(cs[i]) ==> s <= x < |T.stmts|
  {
    forall i | 0 <= i < |cs| ensures Copy(T, ts[i], cs[i], n, s) {
    }
  }

  /** A block over distinct trees is distinct when it and its sentinel come before them. */
  lemma BlockDistinct(T: Tables, ts: seq<Tree>, c: Tree, n: nat, s: nat)
    requires c.Block? && c.id == n < |T.nodes| && c.end == s < |T.stmts| && Copies(T, ts, c.kids, n + 1, s + 1)
    ensures Distinct(c)
    ensures forall x :: x in Nodes(c) ==> n <= x < |T.nodes|
    ensures forall x :: x in Stmts(c) ==> s <= x < |T.stmts|
  {
    hide Reads, Linked, SameTree;
    KidsHold(T, ts, c.kids, n + 1, s + 1);
  }

  lemma BlockDone(T: Tables, t: Tree, c: Tree, owner: Option<nat>, n: nat, s: nat)
    requires Building(T, t, c, owner, n + 1, s + 1) && |c.kids| == |t.kids| && c.id == n && c.end == s
    ensures Copy(T, t, c, n, s) && OwnerOf(T, c.id) == owner
  {
    hide Reads, Linked, Distinct, Nodes, Stmts, Apart, ListLinked, BeginOf, Copies;
    KidsHold(T, t.kids, c.kids, n + 1, s + 1);
    BlockDistinct(T, t.kids, c, n, s);
    BlockReads(T, c, owner);
    BlockLinked(T, c, owner);
  }

  lemma ExprDone(T: Tables, t: Tree, c: Tree, n: nat, s: nat)
    requires t.Expr? && c.Expr? && c.op == t.op && c.data == t.data && |c.kids| == |t.kids| && c.id == n < |T.nodes|
    requires Copies(T, t.kids, c.kids, n + 1, s) && T.nodes[n] == ExprNode(c.op, c.data, Ids(c.kids))
    requires forall i :: 0 <= i < |t.kids| ==> !t.kids[i].Stmt?
    ensures Copy(T, t, c, n, s)
  {
    forall i | 0 <= i < |c.kids| ensures Copy(T, t.kids[i], c.kids[i], n + 1, s) {
    }
  }

  lemma StmtDone(T: Tables, t: Tree, c: Tree, n: nat, s: nat)
    requires t.Stmt? && c.Stmt? && c.op == t.op && c.data == t.data && |c.kids| == |t.kids| && c.id == s < |T.stmts|
    requires T.stmts[s].op == c.op && T.stmts[s].data == c.data && T.stmts[s].kids == Ids(c.kids)
    requires Copies(T, t.kids, c.kids, n, s + 1)
    requires forall i :: 0 <= i < |t.kids| ==> !t.kids[i].Stmt? && (c.kids[i].Block? ==>
             OwnerOf(T, c.kids[i].id) == Some(s))
    ensures Copy(T, t, c, n, s)
  {
    forall i | 0 <= i < |c.kids| ensures Copy(T, t.kids[i], c.kids[i], n, s + 1) {
    }
  }

  // ----- appending to a block ---------------------------------------------------

  ghost predicate Appendable(T: Tables, blk: nat, x: nat) {
    && blk < |T.nodes| && T.nodes[blk].BlockNode? && T.nodes[blk].end < |T.stmts| && x < |T.stmts|
    && (T.nodes[blk].begin != T.nodes[blk].end ==>
          PrevOf(T, T.nodes[blk].end).Some? && PrevOf(T, T.nodes[blk].end).value < |T.stmts|)
  }

  /** The tables once `x` stands in front of the sentinel. */
  ghost function Appended(T: Tables, blk: nat, x: nat): Tables
    requires Appendable(T, blk, x)
  {
    var end := T.nodes[blk].end;
    var parent := T.stmts[end].parent;
    if T.nodes[blk].begin == end then
      Tables(T.nodes[blk := T.nodes[blk].(begin := x)],
             T.stmts[x := T.stmts[x].(prev := None, next := Some(end), parent := parent)]
                    [end := T.stmts[end].(prev := Some(x))])
    else
      var p := T.stmts[end].prev.value;
      Tables(T.nodes,
             T.stmts[x := T.stmts[x].(prev := Some(p), next := Some(end), parent := parent)]
                    [p := T.stmts[p].(next := Some(x))]
                    [end := T.stmts[end].(prev := Some(x))])
  }

  lemma RootsDiffer(T: Tables, ts: seq<Tree>, cs: seq<Tree>, n: nat, s: nat)
    requires Copies(T, ts, cs, n, s) && forall i :: 0 <= i < |cs| ==> cs[i].Stmt?
    ensures forall i, j :: 0 <= i < |cs| && 0 <= j < |cs| && i != j ==> cs[i].id != cs[j].id
    ensures forall i :: 0 <= i < |cs| ==> s <= cs[i].id < |T.stmts|
  {
    forall i, j | 0 <= i < |cs| && 0 <= j < |cs| && i != j ensures cs[i].id != cs[j].id {
      OtherRoot(T, ts, cs, n, s, i, j);
      OwnIds(cs[i]);
    }
    forall i | 0 <= i < |cs| ensures s <= cs[i].id < |T.stmts| {
      assert Copy(T, ts[i], cs[i], n, s);
      OwnIds(cs[i]);
    }
  }

  function Longer(c: Tree, x: Tree): Tree
    requires c.Block?
  {
    Block(c.id, c.end, c.data, c.kids + [x])
  }

  lemma LinksGrowAt(T: Tables, c: Tree, x: Tree, owner: Option<nat>, i: nat)
    requires c.Block? && x.Stmt? && ListLinked(T, c, owner) && x.id < |T.stmts| && x.id != c.end
    requires forall i :: 0 <= i < |c.kids| ==> c.kids[i].id != x.id
    requires forall i, j :: 0 <= i < j < |c.kids| ==> c.kids[i].id != c.kids[j].id
    requires Appendable(T, c.id, x.id) && i <= |c.kids|
    ensures LinksAt(Appended(T, c.id, x.id), Longer(c, x), i)
  {
    var d := Longer(c, x);
    assert d.kids[|c.kids|] == x && forall j :: 0 <= j < |c.kids| ==> d.kids[j] == c.kids[j];
    if c.kids != [] {
      assert LinksAt(T, c, 0) && LinksAt(T, c, |c.kids| - 1);
    }
    if i < |c.kids| {
      assert LinksAt(T, c, i);
    }
  }

  /** The links once one more statement is appended. */
  lemma LinksGrow(T: Tables, c: Tree, x: Tree, owner: Option<nat>)
    requires c.Block? && x.Stmt? && ListLinked(T, c, owner) && x.id < |T.stmts| && x.id != c.end
    requires forall i :: 0 <= i < |c.kids| ==> c.kids[i].id != x.id
    requires forall i, j :: 0 <= i < j < |c.kids| ==> c.kids[i].id != c.kids[j].id
    ensures Appendable(T, c.id, x.id) && ListLinked(Appended(T, c.id, x.id), Longer(c, x), owner)
  {
    if c.kids != [] {
      assert LinksAt(T, c, |c.kids| - 1) && LinksAt(T, c, 0);
    }
    var d := Longer(c, x);
    assert d.kids[|d.kids| - 1] == x && d.kids[0] == if c.kids == [] then x else c.kids[0];
    forall i | 0 <= i < |d.kids| ensures LinksAt(Appended(T, c.id, x.id), d, i) {
      LinksGrowAt(T, c, x, owner, i);
    }
  }

  lemma ListExtends(T0: Tables, T: Tables, c: Tree, owner: Option<nat>)
    requires c.Block? && ListLinked(T0, c, owner) && Extends(T0, T)
    ensures ListLinked(T, c, owner)
  {
    forall i | 0 <= i < |c.kids| ensures LinksAt(T, c, i) {
      assert LinksAt(T0, c, i);
    }
  }

  /** Appending changes links of the sentinel and of listed statements, and nothing else. */
  lemma AppendFrame(T: Tables, c: Tree, x: Tree, owner: Option<nat>)
    requires c.Block? && x.Stmt? && ListLinked(T, c, owner) && Appendable(T, c.id, x.id)
    ensures var T' := Appended(T, c.id, x.id);
            && |T'.nodes| == |T.nodes| && |T'.stmts| == |T.stmts|
            && (forall y :: 0 <= y < |T.nodes| && y != c.id ==> T'.nodes[y] == T.nodes[y])
            && (forall y :: 0 <= y < |T.stmts| && y != c.end ==>
                  && T'.stmts[y].op == T.stmts[y].op && T'.stmts[y].data == T.stmts[y].data
                  && T'.stmts[y].kids == T.stmts[y].kids
                  && (y !in Ids(c.kids + [x]) ==> T'.stmts[y] == T.stmts[y]))
  {
    var ids := Ids(c.kids + [x]);
    assert ids[|c.kids|] == x.id;
    if c.kids != [] {
      assert LinksAt(T, c, 0);
      assert ids[|c.kids| - 1] == c.kids[|c.kids| - 1].id;
    }
  }

  /** A new copy is ready to be appended: it is none of the statements listed so far. */
  lemma AppendReady(T0: Tables, T: Tables, t: Tree, c: Tree, x: Tree, owner: Option<nat>, n: nat, s: nat)
    requires Building(T0, t, c, owner, n, s) && |c.kids| < |t.kids| && Extends(T0, T) && x.Stmt?
    requires Copy(T, t.kids[|c.kids|], x, |T0.nodes|, |T0.stmts|)
    ensures Copies(T, t.kids, c.kids + [x], n, s) && ListLinked(T, c, owner) && s <= x.id < |T.stmts|
    ensures forall i :: 0 <= i < |c.kids| ==> c.kids[i].Stmt? && s <= c.kids[i].id && c.kids[i].id != x.id
    ensures forall i, j :: 0 <= i < j < |c.kids| ==> c.kids[i].id != c.kids[j].id
  {
    var ks := c.kids + [x];
    forall i | 0 <= i < |c.kids| ensures ks[i] == c.kids[i] && ks[i].Stmt? {
      assert LinksAt(T0, c, i);
    }
    assert ks[|c.kids|] == x;
    hide Copy, Apart, ListLinked, LinksAt;
    OneMoreCopy(T0, T, t.kids, c.kids, x, n, s);
    RootsDiffer(T, t.kids, ks, n, s);
    ListExtends(T0, T, c, owner);
  }

  lemma AppendStep(T0: Tables, T: Tables, t: Tree, c: Tree, x: Tree, owner: Option<nat>, n: nat, s: nat)
    requires Building(T0, t, c, owner, n, s) && |c.kids| < |t.kids| && Extends(T0, T) && x.Stmt?
    requires Copy(T, t.kids[|c.kids|], x, |T0.nodes|, |T0.stmts|)
    ensures Appendable(T, c.id, x.id)
    ensures Building(Appended(T, c.id, x.id), t, Longer(c, x), owner, n, s)
  {
    hide Copy, Copies, Apart, Appended, Appendable, ListLinked, LinksAt, Reads, Linked;
    AppendReady(T0, T, t, c, x, owner, n, s);
    LinksGrow(T, c, x, owner);
    AppendFrame(T, c, x, owner);
    CopiesRelinked(T, Appended(T, c.id, x.id), t.kids, c.kids + [x], n, s);
  }

  // ----- children, one at a time ------------------------------------------------

  lemma KidsRead(T: Tables, t: Tree)
    requires Reads(T, t) && !t.Block?
    ensures forall i :: 0 <= i < |t.kids| ==> !t.kids[i].Stmt? && Reads(T, t.kids[i])
    ensures t.Expr? ==> t.id < |T.nodes| && T.nodes[t.id] == ExprNode(t.op, t.data, Ids(t.kids))
    ensures t.Stmt? ==> t.id < |T.stmts| && T.stmts[t.id].op == t.op && T.stmts[t.id].data == t.data
    ensures t.Stmt? ==> T.stmts[t.id].kids == Ids(t.kids)
  {
  }

  lemma NoCopies(T: Tables, ts: seq<Tree>, n: nat, s: nat)
    ensures Copies(T, ts, [], n, s)
  {
  }

  lemma IdsGrow(ks: seq<Tree>, x: Tree, ids: seq<nat>)
    requires |ks| < |ids|
    ensures (Ids(ks) + ids[|ks|..])[|ks| := x.id] == Ids(ks + [x]) + ids[|ks| + 1..]
  {
  }

  lemma StmtReads(T: Tables, t: Tree, i: nat)
    requires Reads(T, t) && t.Block? && i < |t.kids|
    ensures t.kids[i].Stmt? && Reads(T, t.kids[i]) && t.kids[i].id < |T.stmts| && t.kids[i].id != t.end
    ensures T.stmts[t.kids[i].id].next == Some(NextOf(t, i))
  {
    assert Reads(T, t.kids[i]);
  }

  lemma BlockEntry(T: Tables, t: Tree)
    requires Reads(T, t) && t.Block?
    ensures t.id < |T.nodes| && T.nodes[t.id].BlockNode? && T.nodes[t.id].data == t.data
    ensures T.nodes[t.id].end == t.end < |T.stmts| && T.nodes[t.id].begin == BeginOf(t)
    ensures t.kids != [] ==> t.kids[0].id != t.end
  {
  }

  /** A copied child is hung into its parent, which is not part of it. */
  lemma ExprKidStep(T1: Tables, T2: Tables, T3: Tables, t: Tree, ks: seq<Tree>, x: Tree, n: nat, s: nat)
    requires Copies(T1, t.kids, ks, n + 1, s) && |ks| < |t.kids| && Extends(T1, T2) && n < |T1.nodes| && s <= |T1.stmts|
    requires Copy(T2, t.kids[|ks|], x, |T1.nodes|, |T1.stmts|)
    requires n < |T3.nodes| && T3 == Tables(T2.nodes[n := T3.nodes[n]], T2.stmts)
    ensures Copies(T3, t.kids, ks + [x], n + 1, s)
  {
    hide SameTree, Reads, Linked, Distinct, Nodes, Stmts, Apart;
    CopyKept(T2, T3, t.kids[|ks|], x, |T1.nodes|, |T1.stmts|);
    OneMoreCopy(T1, T3, t.kids, ks, x, n + 1, s);
  }

  /** The owner of a copied block is set. */
  function Owned(T: Tables, x: nat, stmt: nat): Tables {
    if x < |T.nodes| && T.nodes[x].BlockNode? then T.(nodes := T.nodes[x := T.nodes[x].(owner := Some(stmt))]) else T
  }

  lemma CopyOwned(T: Tables, t: Tree, x: Tree, n: nat, s: nat, stmt: nat)
    requires Copy(T, t, x, n, s) && !x.Stmt?
    ensures Copy(Owned(T, x.id, stmt), t, x, n, s) && n <= x.id < |T.nodes|
    ensures x.Block? ==> OwnerOf(Owned(T, x.id, stmt), x.id) == Some(stmt)
    ensures x.Block? <==> T.nodes[x.id].BlockNode?
  {
    OwnIds(x);
    if x.Block? {
      BlockEntry(T, x);
      Reowned(T, Owned(T, x.id, stmt), t, x, n, s, Some(stmt));
    }
  }

  /** The same below a statement; a block also learns its owner. */
  lemma StmtKidStep(T1: Tables, T2: Tables, T3: Tables, t: Tree, ks: seq<Tree>, x: Tree, n: nat, s: nat)
    requires Copies(T1, t.kids, ks, n, s + 1) && |ks| < |t.kids| && Extends(T1, T2) && n <= |T1.nodes| && s < |T1.stmts|
    requires Copy(T2, t.kids[|ks|], x, |T1.nodes|, |T1.stmts|) && !x.Stmt?
    requires s < |T3.stmts| && T3 == Tables(T2.nodes, T2.stmts[s := T3.stmts[s]])
    ensures Copies(Owned(T3, x.id, s), t.kids, ks + [x], n, s + 1) && Kept(T1, Owned(T3, x.id, s), n, s + 1)
    ensures x.Block? ==> OwnerOf(Owned(T3, x.id, s), x.id) == Some(s)
    ensures |T1.nodes| <= x.id < |T3.nodes|
  {
    hide Copy, Copies, Reads, Linked;
    CopyKept(T2, T3, t.kids[|ks|], x, |T1.nodes|, |T1.stmts|);
    CopyOwned(T3, t.kids[|ks|], x, |T1.nodes|, |T1.stmts|, s);
    OneMoreCopy(T1, Owned(T3, x.id, s), t.kids, ks, x, n, s + 1);
  }

  /** Owners set so far stay set. */
  lemma OwnersKept(T1: Tables, T4: Tables, ts: seq<Tree>, ks: seq<Tree>, n: nat, s: nat, stmt: nat)
    requires Copies(T1, ts, ks, n, s) && Kept(T1, T4, n, s)
    requires forall i :: 0 <= i < |ks| ==> (ks[i].Block? ==> OwnerOf(T1, ks[i].id) == Some(stmt))
    ensures forall i :: 0 <= i < |ks| ==> (ks[i].Block? ==> OwnerOf(T4, ks[i].id) == Some(stmt))
  {
    forall i | 0 <= i < |ks| && ks[i].Block? ensures OwnerOf(T4, ks[i].id) == Some(stmt) {
      assert Copy(T1, ts[i], ks[i], n, s);
      OwnIds(ks[i]);
    }
  }

  /** A node copied at the end of `T0`, the children `ks` done. */
  ghost predicate ExprUnderway(T0: Tables, T: Tables, t: Tree, ks: seq<Tree>) {
    var n := |T0.nodes|;
    && t.Expr? && Extends(T0, T) && |ks| <= |t.kids| && n < |T.nodes| && Copies(T, t.kids, ks, n + 1, |T0.stmts|)
    && T.nodes[n] == ExprNode(t.op, t.data, Ids(ks) + Ids(t.kids)[|ks|..])
  }

  lemma ExprNext(T0: Tables, T1: Tables, T2: Tables, T3: Tables, t: Tree, ks: seq<Tree>, x: Tree)
    requires ExprUnderway(T0, T1, t, ks) && |ks| < |t.kids| && Extends(T1, T2)
    requires Copy(T2, t.kids[|ks|], x, |T1.nodes|, |T1.stmts|)
    requires var n := |T0.nodes|;
             && T3.stmts == T2.stmts && T2.nodes[n].ExprNode? && |ks| < |T2.nodes[n].kids|
             && T3.nodes == T2.nodes[n := T2.nodes[n].(kids := T2.nodes[n].kids[|ks| := x.id])]
    ensures ExprUnderway(T0, T3, t, ks + [x])
  {
    hide Copy, Copies, Ids;
    IdsGrow(ks, x, Ids(t.kids));
    ExprKidStep(T1, T2, T3, t, ks, x, |T0.nodes|, |T0.stmts|);
  }

  /** A statement copied at the end of `T0`, the children `ks` done. */
  ghost predicate StmtUnderway(T0: Tables, T: Tables, t: Tree, ks: seq<Tree>) {
    var s := |T0.stmts|;
    && t.Stmt? && t.id < s && Extends(T0, T) && |ks| <= |t.kids| && s < |T.stmts|
    && Copies(T, t.kids, ks, |T0.nodes|, s + 1)
    && T.stmts[s] == T0.stmts[t.id].(kids := Ids(ks) + Ids(t.kids)[|ks|..])
    && forall i :: 0 <= i < |ks| ==> (ks[i].Block? ==> OwnerOf(T, ks[i].id) == Some(s))
  }

  lemma StmtNext(T0: Tables, T1: Tables, T2: Tables, T3: Tables, t: Tree, ks: seq<Tree>, x: Tree)
    requires StmtUnderway(T0, T1, t, ks) && |ks| < |t.kids| && Extends(T1, T2)
    requires Copy(T2, t.kids[|ks|], x, |T1.nodes|, |T1.stmts|) && !x.Stmt?
    requires var s := |T0.stmts|;
             && T3.nodes == T2.nodes && |ks| < |T2.stmts[s].kids|
             && T3.stmts == T2.stmts[s := T2.stmts[s].(kids := T2.stmts[s].kids[|ks| := x.id])]
    ensures StmtUnderway(T0, Owned(T3, x.id, |T0.stmts|), t, ks + [x])
  {
    hide Copy, Copies, Ids, OwnerOf;
    IdsGrow(ks, x, Ids(t.kids));
    StmtKidStep(T1, T2, T3, t, ks, x, |T0.nodes|, |T0.stmts|);
    OwnersKept(T1, Owned(T3, x.id, |T0.stmts|), t.kids, ks, |T0.nodes|, |T0.stmts| + 1, |T0.stmts|);
  }

  // ----- statements of a block, one at a time -------------------------------------

  /** The next statement of a block that is being read, in the tables as they have grown. */
  lemma BlockStep(T0: Tables, T: Tables, t: Tree, i: nat)
    requires Reads(T0, t) && t.Block? && Extends(T0, T) && i <= |t.kids|
    ensures t.id < |T0.nodes| && T.nodes[t.id] == T0.nodes[t.id] && T0.nodes[t.id].BlockNode? &&
            T0.nodes[t.id].end == t.end
    ensures i < |t.kids| ==>
              && t.kids[i].Stmt? && Reads(T, t.kids[i]) && t.kids[i].id < |T0.stmts|
              && t.kids[i].id != t.end && T.stmts[t.kids[i].id].next == Some(NextOf(t, i))
  {
    BlockEntry(T0, t);
    if i < |t.kids| {
      StmtReads(T0, t, i);
      ReadsOn(T0, T, t.kids[i]);
    }
  }

  lemma EmptyBlock(T0: Tables, T: Tables, t: Tree, owner: Option<nat>)
    requires t.Block? && t.end < |T0.stmts|
    requires T.nodes == T0.nodes + [BlockNode(t.data, owner, |T0.stmts|, |T0.stmts|)]
    requires T.stmts == T0.stmts + [T0.stmts[t.end].(parent := Some(|T0.nodes|))]
    ensures Building(T, t, Block(|T0.nodes|, |T0.stmts|, t.data, []), owner, |T0.nodes| + 1, |T0.stmts| + 1)
  {
  }

  lemma AppendPre(T: Tables, c: Tree, x: Tree, owner: Option<nat>)
    requires c.Block? && ListLinked(T, c, owner) && x.id != c.end
    requires forall i :: 0 <= i < |c.kids| ==> c.kids[i].id != x.id
    ensures T.nodes[c.id] == BlockNode(c.data, owner, BeginOf(c), c.end)
    ensures BeginOf(c) != c.end ==> T.stmts[c.end].prev != Some(x.id) && T.stmts[c.end].prev != Some(c.end)
  {
    if c.kids != [] {
      assert LinksAt(T, c, |c.kids| - 1);
    }
  }

  /** Appending touches nothing that was there before the block. */
  lemma AppendExtends(T0: Tables, T: Tables, t: Tree, c: Tree, x: Tree, owner: Option<nat>)
    requires Extends(T0, T) && c.Block? && ListLinked(T, c, owner) && Appendable(T, c.id, x.id)
    requires |T0.nodes| <= c.id && |T0.stmts| <= c.end && |T0.stmts| <= x.id
    requires forall i :: 0 <= i < |c.kids| ==> |T0.stmts| <= c.kids[i].id
    ensures Extends(T0, Appended(T, c.id, x.id))
  {
    if c.kids != [] {
      assert LinksAt(T, c, 0);
    }
  }

  /** A block copied at the end of `T0`, as far as `c` goes. */
  ghost predicate BlockUnderway(T0: Tables, T: Tables, t: Tree, c: Tree, owner: Option<nat>) {
    && Extends(T0, T) && c.Block? && c.id == |T0.nodes| < |T.nodes| && c.end == |T0.stmts| < |T.stmts|
    && |c.kids| <= |t.kids| && Building(T, t, c, owner, |T0.nodes| + 1, |T0.stmts| + 1)
  }

  lemma BlockFinished(T0: Tables, T: Tables, t: Tree, c: Tree, owner: Option<nat>)
    requires BlockUnderway(T0, T, t, c, owner) && |c.kids| == |t.kids|
    ensures Copy(T, t, c, |T0.nodes|, |T0.stmts|) && OwnerOf(T, c.id) == owner
  {
    hide Copy;
    BlockDone(T, t, c, owner, |T0.nodes|, |T0.stmts|);
  }

  /** The copy of the next statement may be appended, and the block has grown by it. */
  lemma BlockNext(T0: Tables, T1: Tables, T: Tables, t: Tree, c: Tree, x: Tree, owner: Option<nat>)
    requires BlockUnderway(T0, T1, t, c, owner) && |c.kids| < |t.kids| && Extends(T1, T) && x.Stmt?
    requires Copy(T, t.kids[|c.kids|], x, |T1.nodes|, |T1.stmts|)
    ensures Appendable(T, c.id, x.id) && x.id != c.end && T.nodes[c.id] == BlockNode(c.data, owner, BeginOf(c), c.end)
    ensures BeginOf(c) != c.end ==> T.stmts[c.end].prev != Some(x.id) && T.stmts[c.end].prev != Some(c.end)
    ensures BlockUnderway(T0, Appended(T, c.id, x.id), t, Longer(c, x), owner)
  {
    AppendStep(T1, T, t, c, x, owner, |T0.nodes| + 1, |T0.stmts| + 1);
    assert Appendable(T, c.id, x.id);
    hide Copy, Copies, Appended, ListLinked, LinksAt;
    AppendReady(T1, T, t, c, x, owner, |T0.nodes| + 1, |T0.stmts| + 1);
    AppendPre(T, c, x, owner);
    AppendExtends(T0, T, t, c, x, owner);
  }

  // ----- original and copy --------------------------------------------------------

  lemma {:induction false} IdsBelow(T: Tables, t: Tree)
    requires Reads(T, t)
    ensures forall x :: x in Nodes(t) ==> x < |T.nodes|
    ensures forall x :: x in Stmts(t) ==> x < |T.stmts|
  {
    forall i | 0 <= i < |t.kids|
      ensures forall x :: x in Nodes(t.kids[i]) ==> x < |T.nodes|
      ensures forall x :: x in Stmts(t.kids[i]) ==> x < |T.stmts|
    {
      IdsBelow(T, t.kids[i]);
    }
  }

  /** A copy made after `T0` shares no node and no statement with what `T0` held. */
  lemma {:induction false} SharesNothing(T0: Tables, T: Tables, t: Tree, u: Tree, c: Tree)
    requires Reads(T0, u) && Copy(T, t, c, |T0.nodes|, |T0.stmts|)
    ensures Apart(u, c)
  {
    hide Reads, Linked, SameTree, Distinct;
    IdsBelow(T0, u);
  }

  /** What was held and linked before is so afterwards. */
  lemma OriginalKept(T0: Tables, T: Tables, u: Tree)
    requires Reads(T0, u) && Linked(T0, u) && Extends(T0, T)
    ensures Reads(T, u) && Linked(T, u)
  {
    LinkedOn(T0, T, u);
  }

  // ----- the container ----------------------------------------------------------

  class Container {
    var nodes: seq<NodeData>
    var stmts: seq<StmtData>

    function Now(): Tables
      reads this
    {
      Tables(nodes, stmts)
    }

    method CloneNode(orig: nat) returns (node: nat)
      requires orig < |nodes|
      modifies this`nodes
      ensures node == |old(nodes)| && nodes == old(nodes) + [old(nodes)[orig]]
    {
      node := |nodes|;
      nodes := nodes + [nodes[orig]];
    }

    method CloneStmt(orig: nat) returns (stmt: nat)
      requires orig < |stmts|
      modifies this`stmts
      ensures stmt == |old(stmts)| && stmts == old(stmts) + [old(stmts)[orig]]
    {
      stmt := |stmts|;
      stmts := stmts + [stmts[orig]];
    }

    /** An empty block with a sentinel of its own. */
    method CloneStmtBlk(orig: nat) returns (blk: nat)
      requires orig < |nodes| && nodes[orig].BlockNode? && nodes[orig].end < |stmts|
      modifies this
      ensures blk == |old(nodes)|
      ensures nodes == old(nodes) + [old(nodes)[orig].(begin := |old(stmts)|, end := |old(stmts)|)]
      ensures stmts == old(stmts) + [old(stmts)[old(nodes)[orig].end]]
    {
      var last := CloneStmt(nodes[orig].end);
      blk := CloneNode(orig);
      nodes := nodes[blk := nodes[blk].(begin := last)];
      nodes := nodes[blk := nodes[blk].(end := last)];
    }

    /** Puts `x` in front of `pos`. */
    method Prepend(blk: nat, pos: nat, x: nat)
      requires Appendable(Now(), blk, x) && pos == nodes[blk].end && x != pos
      requires nodes[blk].begin != pos ==> stmts[pos].prev != Some(x) && stmts[pos].prev != Some(pos)
      modifies this
      ensures Now() == Appended(old(Now()), blk, x)
    {
      stmts := stmts[x := stmts[x].(next := Some(pos))];
      stmts := stmts[x := stmts[x].(parent := stmts[pos].parent)];
      if pos == nodes[blk].begin {
        stmts := stmts[pos := stmts[pos].(prev := Some(x))];
        nodes := nodes[blk := nodes[blk].(begin := x)];
        stmts := stmts[x := stmts[x].(prev := None)];
      } else {
        var prev := stmts[pos].prev.value;
        stmts := stmts[x := stmts[x].(prev := Some(prev))];
        stmts := stmts[prev := stmts[prev].(next := Some(x))];
        stmts := stmts[pos := stmts[pos].(prev := Some(x))];
      }
    }

    method Append(blk: nat, x: nat)
      requires Appendable(Now(), blk, x) && x != nodes[blk].end
      requires nodes[blk].begin != nodes[blk].end ==>
                 stmts[nodes[blk].end].prev != Some(x) && stmts[nodes[blk].end].prev != Some(nodes[blk].end)
      modifies this
      ensures Now() == Appended(old(Now()), blk, x)
    {
      stmts := stmts[x := stmts[x].(parent := stmts[nodes[blk].end].parent)];
      Prepend(blk, nodes[blk].end, x);
    }

    /** Copies the tree of a node that is no statement; what was there before is unchanged. */
    method CloneNodeTree(orig: nat, ghost t: Tree) returns (copy: nat, ghost c: Tree)
      requires t.id == orig && !t.Stmt? && Reads(Now(), t)
      modifies this
      ensures Extends(old(Now()), Now()) && c.id == copy && !c.Stmt? && Copy(Now(), t, c, |old(nodes)|, |old(stmts)|)
      ensures OwnerOf(Now(), copy) == OwnerOf(old(Now()), orig)
      decreases t, 1
    {
      if nodes[orig].BlockNode? {
        copy, c := CloneBlockTree(orig, t);
      } else {
        copy, c := CloneExprTree(orig, t);
      }
    }

    method CloneBlockTree(orig: nat, ghost t: Tree) returns (copy: nat, ghost c: Tree)
      requires t.id == orig && t.Block? && Reads(Now(), t)
      modifies this
      ensures Extends(old(Now()), Now()) && c.id == copy && c.Block? && Copy(Now(), t, c, |old(nodes)|, |old(stmts)|)
      ensures OwnerOf(Now(), copy) == OwnerOf(old(Now()), orig)
      decreases t, 0, 1
    {
      BlockEntry(Now(), t);
      hide Copy, Copies, Reads, Linked, Appended, Appendable, ListLinked, LinksAt, Building, Ids, OwnerOf, Kept;
      ghost var T0, owner := Now(), nodes[orig].owner;
      copy := CloneStmtBlk(orig);
      stmts := stmts[nodes[copy].end := stmts[nodes[copy].end].(parent := Some(copy))];
      EmptyBlock(T0, Now(), t, owner);
      c := Block(copy, |T0.stmts|, t.data, []);
      assert BlockUnderway(T0, Now(), t, c, owner);
      hide BlockUnderway;
      var stmt := nodes[orig].begin;
      while stmt != nodes[orig].end
        invariant orig < |T0.nodes| <= copy < |nodes| && nodes[orig] == T0.nodes[orig] && c.Block? && c.id == copy
        invariant BlockUnderway(T0, Now(), t, c, owner) && Extends(T0, Now()) && |c.kids| <= |t.kids|
        invariant stmt == if |c.kids| < |t.kids| then t.kids[|c.kids|].id else t.end
        decreases |t.kids| - |c.kids|
      {
        ghost var i := |c.kids|;
        BlockStep(T0, Now(), t, i);
        c := CloneInto(copy, stmt, T0, t, c, owner);
        BlockStep(T0, Now(), t, i);
        stmt := stmts[stmt].next.value;
      }
      BlockStep(T0, Now(), t, |c.kids|);
      BlockFinished(T0, Now(), t, c, owner);
    }

    /** The next statement of a block, copied and appended. */
    method CloneInto(blk: nat, stmt: nat, ghost T0: Tables, ghost t: Tree, ghost c: Tree, ghost owner: Option<nat>)
      returns (ghost d: Tree)
      requires BlockUnderway(T0, Now(), t, c, owner) && c.id == blk && |c.kids| < |t.kids| && t.Block?
      requires t.kids[|c.kids|].id == stmt && t.kids[|c.kids|].Stmt? && Reads(Now(), t.kids[|c.kids|])
      modifies this
      ensures BlockUnderway(T0, Now(), t, d, owner) && Extends(T0, Now())
      ensures d.Block? && d.id == blk < |nodes| && |d.kids| == |c.kids| + 1
      decreases t, 0, 0
    {
      hide Copy, Copies, Reads, Linked, Appended, Appendable, ListLinked, LinksAt, Building;
      ghost var T1 := Now();
      var cloned, x := CloneStmtTree(stmt, t.kids[|c.kids|]);
      BlockNext(T0, T1, Now(), t, c, x, owner);
      Append(blk, cloned);
      d := Longer(c, x);
    }

    method CloneExprTree(orig: nat, ghost t: Tree) returns (copy: nat, ghost c: Tree)
      requires t.id == orig && t.Expr? && Reads(Now(), t)
      modifies this
      ensures Extends(old(Now()), Now()) && c.id == copy && c.Expr? && Copy(Now(), t, c, |old(nodes)|, |old(stmts)|)
      ensures OwnerOf(Now(), copy) == OwnerOf(old(Now()), orig)
      decreases t, 0
    {
      KidsRead(Now(), t);
      assert |Ids(t.kids)| == |t.kids|;
      hide Copy, Copies, Reads, Linked, Ids;
      ghost var T0, ks := Now(), [];
      copy := CloneNode(orig);
      NoCopies(Now(), t.kids, copy + 1, |stmts|);
      assert ExprUnderway(T0, Now(), t, ks);
      var num := 0;
      while num < |nodes[orig].kids|
        invariant orig < |T0.nodes| <= copy < |nodes| && num == |ks| && nodes[orig] == T0.nodes[orig] &&
                  |nodes[orig].kids| == |t.kids|
        invariant ExprUnderway(T0, Now(), t, ks)
      {
        ghost var T1 := Now();
        ReadsOn(T0, T1, t.kids[num]);
        var kid, x := CloneNodeTree(nodes[orig].kids[num], t.kids[num]);
        ghost var T2 := Now();
        nodes := nodes[copy := nodes[copy].(kids := nodes[copy].kids[num := kid])];
        ExprNext(T0, T1, T2, Now(), t, ks, x);
        ks := ks + [x];
        num := num + 1;
      }
      c := Expr(copy, t.op, t.data, ks);
      ExprDone(Now(), t, c, |T0.nodes|, |T0.stmts|);
    }

    /**
      Copies a statement with its tree.  The copy is complete, has the same
      shape, shares nothing with the original, and its inner links are in
      order; its own links are still those of the original.
     */
    method CloneStmtTree(orig: nat, ghost t: Tree) returns (copy: nat, ghost c: Tree)
      requires t.id == orig && t.Stmt? && Reads(Now(), t)
      modifies this
      ensures Extends(old(Now()), Now()) && c.id == copy && c.Stmt? && Copy(Now(), t, c, |old(nodes)|, |old(stmts)|)
      ensures PrevOf(Now(), copy) == PrevOf(old(Now()), orig) && ParentOf(Now(), copy) == ParentOf(old(Now()), orig)
      decreases t, 0
    {
      KidsRead(Now(), t);
      assert |Ids(t.kids)| == |t.kids|;
      hide Copy, Copies, Reads, Linked, Ids;
      ghost var T0, ks := Now(), [];
      copy := CloneStmt(orig);
      NoCopies(Now(), t.kids, |nodes|, copy + 1);
      assert StmtUnderway(T0, Now(), t, ks);
      var num := 0;
      while num < |stmts[copy].kids|
        invariant orig < |T0.stmts| <= copy < |stmts| && num == |ks| && stmts[orig] == T0.stmts[orig] &&
                  |stmts[copy].kids| == |t.kids|
        invariant StmtUnderway(T0, Now(), t, ks)
      {
        ghost var T1 := Now();
        ReadsOn(T0, T1, t.kids[num]);
        var kid, x := CloneNodeTree(stmts[orig].kids[num], t.kids[num]);
        ghost var T2 := Now();
        stmts := stmts[copy := stmts[copy].(kids := stmts[copy].kids[num := kid])];
        StmtNext(T0, T1, T2, Now(), t, ks, x);
        if nodes[kid].BlockNode? {
          nodes := nodes[kid := nodes[kid].(owner := Some(copy))];
        }
        ks := ks + [x];
        num := num + 1;
      }
      c := Stmt(copy, t.op, t.data, ks);
      StmtDone(Now(), t, c, |T0.nodes|, |T0.stmts|);
    }
  }
}
