/**
  The structured intermediate representation the SSA builder works on
  (`st`, `stf`, `stp`, `stpf`, `ist`, `call`, `retv`, `if` and `do_loop` trees).

  Every tree node carries the identifier the container gave it; the SSA tables
  are keyed by these identifiers.
 */
module Ir {
  import opened Basics

  datatype VarKind = Datum | Preg

  /** An address datum (variable) or a pseudo register. */
  datatype Var = Var(kind: VarKind, num: nat)

  /** `NoIndex` names the whole variable, `At(k)` field or element `k` of it. */
  datatype Index = NoIndex | At(k: int)

  datatype Place = Place(v: Var, ix: Index)

  function Whole(v: Var): Place {
    Place(v, NoIndex)
  }

  /**
    - `Leaf` and `Node` are operators without and with operands; an operator
      with more operands is a chain of `Node`s, visited left to right.
    - `Load` is `ld`, `ldf`, `ldp`, `ldpf`, and `ild` with constant subscripts.
    - `LoadAt` is `ild` with a subscript that is not constant.
    - `TableAt` is `ild` on a constant array (`ldca`).
   */
  datatype Expr =
    | Leaf(id: nat, op: nat)
    | Node(id: nat, op: nat, left: Expr, right: Expr)
    | Load(id: nat, p: Place)
    | LoadAt(id: nat, v: Var, sub: Expr)
    | TableAt(id: nat, table: nat, sub: Expr)

  /**
    - `Store` is `st`, `stf`, `stp`, `stpf`, and `ist` with constant subscripts.
    - `StoreAt` is `ist` with a subscript that is not constant.
    - `Call` defines its return register, if it has one.
    - `Retv` returns the value of the variable its child (node `kid`) loads.
    - `Loop` is `do_loop`: iv := init; while cmp { body; iv := step }.
   */
  datatype Stmt =
    | Skip
    | Seq(first: Stmt, second: Stmt)
    | Store(id: nat, p: Place, rhs: Expr)
    | StoreAt(id: nat, v: Var, sub: Expr, rhs: Expr)
    | Call(id: nat, callee: nat, args: Expr, ret: Option<Var>)
    | Retv(id: nat, kid: nat, v: Var)
    | If(id: nat, cond: Expr, thn: Stmt, els: Stmt)
    | Loop(id: nat, iv: Var, init: Expr, cmp: Expr, step: Expr, body: Stmt)

  /** A formal parameter: the `idname` node and the variable it names. */
  datatype Formal = Formal(id: nat, v: Var)

  datatype Func = Func(id: nat, formals: seq<Formal>, body: Stmt)

  // ----- identifiers ---------------------------------------------------------

  function ExprIds(e: Expr): set<nat> {
    match e
    case Leaf(id, _) => {id}
    case Node(id, _, l, r) => {id} + ExprIds(l) + ExprIds(r)
    case Load(id, _) => {id}
    case LoadAt(id, _, sub) => {id} + ExprIds(sub)
    case TableAt(id, _, sub) => {id} + ExprIds(sub)
  }

  function StmtIds(s: Stmt): set<nat> {
    match s
    case Skip => {}
    case Seq(a, b) => StmtIds(a) + StmtIds(b)
    case Store(id, _, rhs) => {id} + ExprIds(rhs)
    case StoreAt(id, _, sub, rhs) => {id} + ExprIds(sub) + ExprIds(rhs)
    case Call(id, _, args, _) => {id} + ExprIds(args)
    case Retv(id, kid, _) => {id, kid}
    case If(id, c, a, b) => {id} + ExprIds(c) + StmtIds(a) + StmtIds(b)
    case Loop(id, _, i, c, st, b) => {id} + ExprIds(i) + ExprIds(c) + ExprIds(st) + StmtIds(b)
  }

  /** Tree-shaped: no node identifier occurs twice. */
  ghost predicate UniqueExpr(e: Expr) {
    match e
    case Leaf(_, _) => true
    case Node(id, _, l, r) =>
      UniqueExpr(l) && UniqueExpr(r) && {id} !! ExprIds(l) !! ExprIds(r)
    case Load(_, _) => true
    case LoadAt(id, _, sub) => UniqueExpr(sub) && id !in ExprIds(sub)
    case TableAt(id, _, sub) => UniqueExpr(sub) && id !in ExprIds(sub)
  }

  ghost predicate UniqueStmt(s: Stmt) {
    match s
    case Skip => true
    case Seq(a, b) => UniqueStmt(a) && UniqueStmt(b) && StmtIds(a) !! StmtIds(b)
    case Store(id, _, rhs) => UniqueExpr(rhs) && id !in ExprIds(rhs)
    case StoreAt(id, _, sub, rhs) =>
      UniqueExpr(sub) && UniqueExpr(rhs) && {id} !! ExprIds(sub) !! ExprIds(rhs)
    case Call(id, _, args, _) => UniqueExpr(args) && id !in ExprIds(args)
    case Retv(id, kid, _) => id != kid
    case If(id, c, a, b) =>
      UniqueExpr(c) && UniqueStmt(a) && UniqueStmt(b) &&
      {id} !! ExprIds(c) !! StmtIds(a) !! StmtIds(b)
    case Loop(id, _, i, c, st, b) =>
      UniqueExpr(i) && UniqueExpr(c) && UniqueExpr(st) && UniqueStmt(b) &&
      {id} !! ExprIds(i) !! ExprIds(c) !! ExprIds(st) !! StmtIds(b)
  }

  // ----- loop roots ----------------------------------------------------------

  /** The expression is itself a load, so its own node is annotated as a use. */
  predicate BareLoad(e: Expr) {
    e.Load? || e.LoadAt?
  }

  /** No loop initialises or steps its induction variable with a bare load. */
  predicate NoBareRoots(s: Stmt) {
    match s
    case Seq(a, b) => NoBareRoots(a) && NoBareRoots(b)
    case If(_, _, a, b) => NoBareRoots(a) && NoBareRoots(b)
    case Loop(_, _, i, _, st, b) => !BareLoad(i) && !BareLoad(st) && NoBareRoots(b)
    case _ => true
  }

  // ----- accessed places -----------------------------------------------------

  /** Loads under the subscript of a constant array are skipped, as the source skips them. */
  function ExprPlaces(e: Expr): set<Place> {
    match e
    case Leaf(_, _) => {}
    case Node(_, _, l, r) => ExprPlaces(l) + ExprPlaces(r)
    case Load(_, p) => {p}
    case LoadAt(_, v, sub) => {Whole(v)} + ExprPlaces(sub)
    case TableAt(_, _, _) => {}
  }

  /** Places with a real occurrence: loaded from or stored to as such. */
  function StmtPlaces(s: Stmt): set<Place> {
    match s
    case Skip => {}
    case Seq(a, b) => StmtPlaces(a) + StmtPlaces(b)
    case Store(_, p, rhs) => {p} + ExprPlaces(rhs)
    case StoreAt(_, v, sub, rhs) => {Whole(v)} + ExprPlaces(sub) + ExprPlaces(rhs)
    case Call(_, _, args, ret) =>
      ExprPlaces(args) + (if ret.Some? then {Whole(ret.value)} else {})
    case Retv(_, _, v) => {Whole(v)}
    case If(_, c, a, b) => ExprPlaces(c) + StmtPlaces(a) + StmtPlaces(b)
    case Loop(_, iv, i, c, st, b) =>
      {Whole(iv)} + ExprPlaces(i) + ExprPlaces(c) + ExprPlaces(st) + StmtPlaces(b)
  }

  function LoopVars(s: Stmt): set<Var> {
    match s
    case Seq(a, b) => LoopVars(a) + LoopVars(b)
    case If(_, _, a, b) => LoopVars(a) + LoopVars(b)
    case Loop(_, iv, _, _, _, b) => {iv} + LoopVars(b)
    case _ => {}
  }

  function FormalIds(fs: seq<Formal>): set<nat> {
    set f | f in fs :: f.id
  }

  /**
    What the source takes for granted of a function body: nodes form a tree,
    formals are distinct, and an induction variable is a scalar (no field or
    element of it is accessed).
   */
  ghost predicate WellFormed(f: Func) {
    && UniqueStmt(f.body)
    && f.id !in StmtIds(f.body)
    && f.id !in FormalIds(f.formals)
    && FormalIds(f.formals) !! StmtIds(f.body)
    && (forall i, j :: 0 <= i < j < |f.formals| ==>
          f.formals[i].id != f.formals[j].id && f.formals[i].v != f.formals[j].v)
    && (forall p :: p in StmtPlaces(f.body) && p.ix.At? ==> p.v !in LoopVars(f.body))
  }
}
