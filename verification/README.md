# Verified model of the AIR SSA builder and register allocator

This project models two passes of the AIR compiler infrastructure and the data
structures under them, and proves what they are for.

**SSA construction on the structured IR** (`air-infra/opt`). Functions are trees
of assignments, calls, returns, `if` and `do_loop` over variables, pseudo
registers, fields and array elements. The builder enters a symbol for every
accessed place, lists for every store what else it changes (chi) and for every
return what it exposes (mu), inserts phis at the enclosing statements, and
renames with one stack of versions and block marks per symbol. A verifier
replays the renaming on the finished tables.

- `Basics`, `Ir`, `StoreSemantics`: the IR and its meaning over a store, indexed by fuel.
- `SsaTables`, `SsaSemantics`: symbols, versions, phi, chi and mu; renaming without
  stacks (`After`, `Renamed`); the meaning of the SSA form over versions.
- `Plans`, `Symbols`, `SimpleBuilder`, `PlanFrames`: phases 1 to 3, symbols, mu and
  chi lists, phi placement.
- `VersionStacks`, `SsaContainers`, `Frames`, `Renaming`: phase 4, the renaming traversal
  with its stacks, proved to compute `Renamed` and to be balanced.
- `Meaning`, `Dominance`, `LostUse`: the SSA form computes what the function computes;
  definers dominate uses and are unique; what a bare load at a loop root loses.
- `Provenance`, `StoreUse`: versions resolve to the execution that defined the symbol last;
  what the SSA form needs the store for.
- `SsaChecks`, `SsaVerify`, `SsaSound`, `SsaBuild`: the verifier decides a stack-free
  definition of well-formed tables, and what its success rules out; all phases in order.

**Live intervals and linear scan** (`air-infra/cg`). The builder walks the layout
backwards and gives every value a sorted list of half-open ranges; the scan gives
every interval a register.

- `LiveIntervals`: range lists and their operations.
- `Liveness`: control-flow graphs, slots, and liveness defined by paths.
- `IntervalSweep`, `LiveIntervalBuilders`: the backward walk, proved to build every slot
  at which a value is live or just defined and, in strict SSA form, no other.
- `Lsras`: the scan, which is first fit in the order of starts, with or without holes.
- `Execution`, `Pressure`, `Allocation`: instructions over pseudo registers and over
  registers; register pressure; the chain from graph to registers and code, proved,
  for values without holes, to succeed exactly when the pressure allows it.
- `Moves`, `Rewriting`, `Emission`, `EntryRuns`, `LostMoves`: phis become moves at the end of
  the predecessors, executed one after the other; exactly when they do what the phis
  mean, and two graphs on which they do not.

**Beside these**: `StmtLists` (statement lists linked through tables, refined to
sequences), `Cloning` (deep copies of statement and node trees), `DomBuilder` in
`PostOrder` (post-order numbering and common ancestors), `RecordLayout` (placement of
fields).

Code that updates objects is modelled by classes whose methods update the same
tables, in the order of the original; code that only computes by functions. Every
method is proved against a specification function or a property of the whole new
state, and the lemmas are about those.

## Where the model and the original differ in form

- Identifiers are natural numbers; `WordsAreExact` is about those the stacks can hold,
  below INT32_MAX. No node of a function has two parents. The links from a statement
  to the statement around it are the path the traversal passes down. Phi, chi and mu lists are sequences.
- An operator with more than two operands is a chain of binary nodes. The induction
  variable of a loop is a scalar: no field or element of it is accessed.
- Loads below the subscript of a constant array are not visited by the code and get no
  version; in the SSA semantics they read the store. A store at a subscript that is
  not constant has no operand that says which element it changes; the SSA semantics
  keeps the store for it, and the definition of the whole variable is its value.
  `FuncStoreUnread` says that nothing else reads it, `PatchLosesOld` that it is needed, and
  `FuncLoadsResolve` speaks of versions alone.
- `Handle_do_loop_iv` (`ssa_simple_builder.h:306-313`) overwrites the annotation of the
  root of a loop's init and step. When such a root is itself a load its use is lost:
  `LoadsKeptIff` says exactly when no use is lost, `BareRootLosesX` gives a function
  whose meaning changes, and `MeaningPreserved` is about all others.
- A failed `AIR_ASSERT` of the verifier is a result: it goes no further and reports it.
- Blocks are numbered by layout position. Phis and chis are held apart from the other
  instructions of a block. Edges go forward in layout order, as
  `live_interval_builder.cxx:139-149` leaves loops unsupported. The last slot must
  fit into the 29 bits of a slot.
- `lsra.cxx:128-132` goes on behind the element it has just erased, so one interval is
  passed over; the model does the same and stops at the end of the list. The
  neighbour check of `lsra.cxx:157-171` looks at the next interval before asking
  whether there is one; the model asks first. An interval that reaches the
  unimplemented spilling is recorded in `blocked` and has no register.
- By its comments `lsra.cxx:66-77` prefers caller-saved registers; since every usable
  register is free for ever, it does so strictly, lowest number first.
- The order in which a map lists intervals the comparator holds equal is not promised.
- An undefined pseudo register has no value.
- The moves for phis are appended to the predecessor (`preg2dreg_rewritter.h:115-116`), behind
  everything in it, and are executed one after the other whichever edge is taken. With
  separate registers that can still lose a value: two phis may swap registers
  (`SwapLoses`), and a move for one edge is executed on the others (`DetourLoses`).
  `EmittedIff` and `SafeIff` say exactly when all values are kept along every path from
  every state in which registers and values agree, `RefinesIff` when they are from the entry. The
  loops over a block stop before its last instruction, so a phi that is the last one
  stays. An assertion that fails is a result: no code comes out. Copies on each edge that
  all read before any writes would always do (`ParallelRefines`), but are not what is emitted.
- The comparison of values includes the register class, that of `PREG_INFO` does not; they
  agree where a pseudo register has one class at its definition and all its uses.
- `STMT_LIST::Append(pos, stmt)` goes on after prepending when `pos` is the sentinel
  (`container.cxx:128-138`) and then writes through the null successor; `AppendAt` stops
  there and reports it. Inserted statements are in no list and spliced lists are
  different ones, which the source does not check.
- Nodes and statements have separate tables in `Cloning`, fresh entries at the end.

## Model

| member | source | states |
|---|---|---|
| `VersionStacks.WordsAreExact` | air-infra/opt/include/ssa_rename_stack.h:43-48 | For identifiers below INT32_MAX, versions and marks share one 32-bit word without confusion: the two tests tell them apart and distinct entries have distinct words. |
| `VersionStacks.VersionStack.Initialize` | air-infra/opt/include/ssa_rename_stack.h:104-114 | Every stack holds the zero version of its symbol under the mark of the function entry. |
| `VersionStacks.VersionStack.NextVersion` | air-infra/opt/include/ssa_rename_stack.h:53-53 | Numbers of one symbol count up by one; the other symbols keep theirs. |
| `VersionStacks.VersionStack.PushVer` | air-infra/opt/include/ssa_rename_stack.h:128-131 | One version more on the stack of its symbol, nothing else changes. |
| `VersionStacks.VersionStack.TopVerId` | air-infra/opt/include/ssa_rename_stack.h:67-76 | The topmost version, whatever marks lie above it. |
| `VersionStacks.VersionStack.PushMark` | air-infra/opt/include/ssa_rename_stack.h:157-170 | The node's mark on the stacks of exactly the listed symbols. |
| `VersionStacks.VersionStack.PopMark` | air-infra/opt/include/ssa_rename_stack.h:84-92 | Each listed stack loses exactly what is above its topmost mark, which must be the node's, and the mark. |
| `VersionStacks.PopRestores` | air-infra/opt/include/ssa_rename_stack.h:173-186 | Popping the marks of a node gives back exactly the stacks from before they were pushed, whatever versions were pushed above them. |
| `VersionStacks.VersionStack.Finalize` | air-infra/opt/include/ssa_rename_stack.h:117-125 | After a balanced traversal the entry mark is found and only the zero versions are left. |
| `VersionStacks.PushEachAt` | air-infra/opt/include/ssa_rename_ctx.h:83-98 | Pushing a version for each symbol of a list without repetition puts exactly one entry on each of these stacks and none on the others. |
| `SsaContainers.SsaContainer.NewSym` | air-infra/opt/src/ssa_container.cxx:57-69 | A new symbol gets a fresh zero version that nothing defines. |
| `SsaContainers.SsaContainer.NewVer` | air-infra/opt/src/ssa_container.cxx:71-78 | A new version entry without number and definer; older versions keep their identifiers. |
| `SsaContainers.NumberedExtends` | air-infra/opt/include/ssa_rename_ctx.h:51-58 | Version numbers of a symbol stay 1, 2, ... without gaps, in the order of its versions, when the next one is handed out. |
| `Renaming.RenameCtx.HandleUse` | air-infra/opt/include/ssa_rename_ctx.h:68-71 | A use is annotated with the current version of its symbol; only that node changes. |
| `Renaming.RenameCtx.DefineNext` | air-infra/opt/include/ssa_rename_ctx.h:51-58 | The next version is numbered, knows its definer, and is the only entry pushed; the numbering stays increasing and without gaps. |
| `Renaming.RenameCtx.HandleDef` | air-infra/opt/include/ssa_rename_ctx.h:61-65 | A definition node carries a fresh version that names it as definer. |
| `Renaming.RenameCtx.VisitExpr` | air-infra/opt/include/ssa_rename_handler.h:31-84 | Every load of an expression is annotated with the version current before it; loads under the subscript of a constant array are not annotated. |
| `Renaming.RenameCtx.RenameChiList` | air-infra/opt/include/ssa_rename_ctx.h:122-146 | Each chi reads the version before its own push and defines the next version, in list order. |
| `Renaming.RenameCtx.RenamePhiOpnd` | air-infra/opt/include/ssa_rename_ctx.h:102-119 | Operand `opnd` of every phi is the current version of its symbol; results and the other operand are untouched. |
| `Renaming.RenameCtx.RenamePhiList` | air-infra/opt/include/ssa_rename_ctx.h:80-99 | Each phi defines the next version, in list order, and pushes exactly that. |
| `Renaming.RenameCtx.RenameMuList` | air-infra/opt/include/ssa_rename_ctx.h:149-162 | Each mu operand is the current version of its symbol. |
| `Renaming.RenameCtx.HandleDefAndChi` | air-infra/opt/include/ssa_rename_handler.h:93-97 | Direct definition first, chi list second: the stack-free renaming `AfterDef`, and exactly its pushes. |
| `Renaming.RenameCtx.VisitStmt` | air-infra/opt/include/ssa_rename_handler.h:22-210 | Visiting any statement tree annotates it as the stack-free renaming does and leaves the stacks `StacksAfter` describes. |
| `Renaming.RenameCtx.HandleStore` | air-infra/opt/include/ssa_rename_handler.h:124-133 | Right-hand side before the definition. |
| `Renaming.RenameCtx.HandleStoreAt` | air-infra/opt/include/ssa_rename_handler.h:100-122 | Right-hand side, then subscript, then the definition of the whole variable. |
| `Renaming.RenameCtx.HandleCall` | air-infra/opt/include/ssa_rename_handler.h:158-167 | Arguments first; a definition only when there is a return register. |
| `Renaming.RenameCtx.HandleRetv` | air-infra/opt/include/ssa_rename_handler.h:87-90 | The returned variable and its mu list read current versions; nothing is pushed. |
| `Renaming.RenameCtx.HandleBranch` | air-infra/opt/include/ssa_rename_handler.h:173-177 | Mark, visit, phi operand, pop: the stacks are the same as before the branch, the operand is the version at its end. |
| `Renaming.RenameCtx.HandleIf` | air-infra/opt/include/ssa_rename_handler.h:170-185 | Both branches start from the same versions; the phis join the versions at their ends; only the phi results stay on the stacks. |
| `Renaming.RenameCtx.EnterLoop` | air-infra/opt/include/ssa_rename_handler.h:188-196 | The init expression reads the versions before the loop, operand 0 includes the induction variable it sets. |
| `Renaming.RenameCtx.CloseLoop` | air-infra/opt/include/ssa_rename_handler.h:202-207 | The step reads the versions at the end of the body, operand 1 includes the induction variable it sets. |
| `Renaming.RenameCtx.HandleBody` | air-infra/opt/include/ssa_rename_handler.h:199-210 | Body and step under marks: the stacks are the same as at the loop header. |
| `Renaming.RenameCtx.HandleDoLoop` | air-infra/opt/include/ssa_rename_handler.h:188-210 | Condition and body read the header versions, the phis join preheader and back edge; only init and phi results stay on the stacks. |
| `Renaming.IfBalanced` | air-infra/opt/include/ssa_rename_handler.h:170-185 | An `if` leaves exactly its own phi result for each symbol defined inside at any depth, and every other stack unchanged. |
| `Renaming.LoopBalanced` | air-infra/opt/include/ssa_rename_handler.h:188-210 | A loop leaves exactly its own phi result for each such symbol, for the induction variable on top of its init, and every other stack unchanged. |
| `Renaming.RenameCtx.HandleFuncEntry` | air-infra/opt/include/ssa_rename_handler.h:22-29 | Entry chis, formals, body: the whole function is renamed as the stack-free renaming says, and the version table ends where that ends. |
| `Renaming.RenameCtx.Finalize` | air-infra/opt/include/ssa_rename_stack.h:117-125 | The traversal ends with only the zero versions on the stacks. |
| `SimpleBuilder.SimpleBuilderCtx.EnterVar` | air-infra/opt/include/ssa_simple_builder.h:80-105 | One symbol for each entered place, found again later; the parent, child and sibling links stay well formed and acyclic; a place is marked as occurring exactly when some access was real. |
| `Symbols.NewPartValid` | air-infra/opt/include/ssa_simple_builder.h:95-103 | Linking a new field or element in front of its siblings keeps the symbol tree well formed. |
| `Symbols.ValidDistinct` | air-infra/opt/include/ssa_simple_builder.h:80-105 | No two symbols stand for the same variable and index. |
| `Symbols.PartsOfWhole` | air-infra/opt/include/ssa_simple_builder.h:129-161 | The child and sibling links of a whole variable reach exactly its parts. |
| `Symbols.WholeOfPart` | air-infra/opt/include/ssa_simple_builder.h:162-173 | The parent of a part is its whole variable, which has no parent. |
| `SimpleBuilder.SimpleBuilderCtx.SymtabExpr` | air-infra/opt/include/ssa_simple_builder.h:357-422 | The symbols of exactly the places an expression loads, and of their whole variables. |
| `SimpleBuilder.SimpleBuilderCtx.SymtabStmt` | air-infra/opt/include/ssa_simple_builder.h:424-525 | The same for statements: every accessed place has a symbol, and only these really occur. |
| `SimpleBuilder.SimpleBuilderCtx.SymtabFunc` | air-infra/opt/src/ssa_build.cxx:26-33 | Phase 1 enters the formals and the accessed places, and marks as occurring exactly the accessed ones. |
| `SimpleBuilder.SimpleBuilderCtx.AppendPhiDef` | air-infra/opt/include/ssa_simple_builder.h:119-127 | The symbol is added to the set of every enclosing `if` and loop, and to no other set. |
| `SimpleBuilder.SimpleBuilderCtx.HandleChildDef` | air-infra/opt/include/ssa_simple_builder.h:129-152 | One chi for each occurring symbol reached over child and sibling links, each once, in front of the given list; each is recorded for phi insertion. |
| `SimpleBuilder.SimpleBuilderCtx.HandleAliasDef` | air-infra/opt/include/ssa_simple_builder.h:154-175 | One chi for each occurring symbol that overlaps the defined one without being it, each once. |
| `SimpleBuilder.SimpleBuilderCtx.HandleVarDef` | air-infra/opt/include/ssa_simple_builder.h:177-206 | Node symbol for a direct definition, a chi of its own for a formal; then the chis of what overlaps. All of it is recorded for phi insertion. |
| `SimpleBuilder.SimpleBuilderCtx.HandleVarUse` | air-infra/opt/include/ssa_simple_builder.h:240-243 | The direct use: the node is annotated with the symbol of its place, and only that node. |
| `SimpleBuilder.SimpleBuilderCtx.HandleChildUse` | air-infra/opt/include/ssa_simple_builder.h:208-229 | One mu for each occurring symbol reached, each once. |
| `SimpleBuilder.SimpleBuilderCtx.MuChiRetv` | air-infra/opt/include/ssa_simple_builder.h:605-616 | The mu list of a return has the returned variable and every occurring part of it, each once. |
| `Plans.RetvExposes` | air-infra/opt/include/ssa_simple_builder.h:231-239 | The mu list of a return has exactly the symbols that really occur of the returned variable. |
| `SimpleBuilder.SimpleBuilderCtx.HandleDoLoopIv` | air-infra/opt/include/ssa_simple_builder.h:306-315 | The symbol of the induction variable, and no other, is newly marked as one; the roots of init and step carry it; it joins the sets of the loop and of what encloses it. |
| `SimpleBuilder.SimpleBuilderCtx.MuChiStmt` | air-infra/opt/include/ssa_simple_builder.h:546-699 | Symbols and mu and chi lists of a statement tree are complete and exact, and the phi sets hold exactly what is defined inside. |
| `SimpleBuilder.SimpleBuilderCtx.MuChiIf` | air-infra/opt/include/ssa_simple_builder.h:119-127 | What the branches define is recorded at this `if` and at everything around it. |
| `SimpleBuilder.SimpleBuilderCtx.MuChiLoop` | air-infra/opt/include/ssa_simple_builder.h:692-699 | The same for a loop, with its induction variable. |
| `SimpleBuilder.SimpleBuilderCtx.MuChiFunc` | air-infra/opt/include/ssa_simple_builder.h:532-544 | Phase 2 as a whole, with one entry chi for each occurring symbol of a formal; exactly the induction variables are marked. |
| `Plans.RootsOfLoops` | air-infra/include/air/opt/ssa_container.h:126-136 | After phase 2 every root of an init or step, which is no access itself, carries a marked symbol, as setting its symbol and version asserts. |
| `Meaning.RelatedIff` | air-infra/opt/include/ssa_simple_builder.h:154-175 | The symbols a definition has chis for: of other places exactly those whose value some store to the defined place changes. |
| `SimpleBuilder.SimpleBuilderCtx.InsertPhi` | air-infra/opt/include/ssa_simple_builder.h:319-335 | Each statement with a set gets one blank phi for each symbol of it and no other; other statements get none. |
| `PlanFrames.PhisFromScf` | air-infra/opt/include/ssa_simple_builder.h:319-335 | Phi placement is exact: one phi for a symbol if and only if it is defined inside, directly, by chi or as induction variable, at any depth. |
| `Plans.AfterBelow` | air-infra/opt/include/ssa_rename_ctx.h:51-58 | Versions only grow, and the current version of a symbol is always one already handed out. |
| `Plans.UndefinedKept` | air-infra/opt/include/ssa_rename_handler.h:170-210 | A symbol that is not defined inside a statement keeps its version through it. |
| `Meaning.EvalAgrees` | air-infra/opt/include/ssa_rename_handler.h:31-84 | An expression evaluated over versions has its value in the store. |
| `Meaning.DefAgrees` | air-infra/opt/include/ssa_simple_builder.h:177-206 | After a store the new versions of the stored symbol and of everything that overlaps it hold what the store holds; all other versions are still right. For a store at an unknown subscript the store the run carries supplies the rest of the array. |
| `Meaning.PhiAgrees` | air-infra/opt/include/ssa_rename_handler.h:183-196 | After the phis of a join every current version holds what the store holds, whichever edge was taken. |
| `Meaning.BackEdgeAgrees` | air-infra/opt/include/ssa_rename_handler.h:199-210 | The versions at the end of a loop iteration, passed through the phis, are those the next iteration reads. |
| `Meaning.Simulates` | air-infra/opt/include/ssa_rename_handler.h:22-210 | Statement by statement, for every fuel: the SSA form and the original end alike with the same store. |
| `Meaning.MeaningPreserved` | air-infra/opt/src/ssa_build.cxx:22-69 | Whole functions: for all arguments, stores, operators and fuel both forms diverge, fall through or return the same value alike, with the same store; the final versions and the mu operands hold what the store holds. |
| `Meaning.LoadsKeptIff` | air-infra/opt/include/ssa_simple_builder.h:306-313 | Exactly when renaming loses a use: all visited loads keep the current version if and only if no loop starts or steps with a bare load. |
| `Provenance.LoadsResolve` | air-infra/opt/include/ssa_rename_handler.h:22-210 | No stale version: beside any execution of a statement, the version each executed load carries resolves, through the phi operands of the edges taken and through chis, to the very execution of the very statement that defined or overlapped its symbol last. |
| `Provenance.FuncLoadsResolve` | air-infra/opt/src/ssa_build.cxx:22-69 | The same for whole functions without bare loop roots, for all arguments, stores, operators and fuel. |
| `StoreUse.StoreUnread` | air-infra/opt/include/ssa_rename_handler.h:22-210 | A statement without stores at unknown subscripts and without loads under constant arrays runs on versions alone: its outcome and its versions do not depend on the carried store. |
| `StoreUse.FuncStoreUnread` | air-infra/opt/src/ssa_build.cxx:49-57 | The same for every renamed function of that kind. |
| `StoreUse.PatchKeepsOld` | air-infra/opt/include/ssa_rename_handler.h:100-122 | `a[f()] := g(); return a` returns an element of `a` it did not store to as it was. |
| `StoreUse.PatchLosesOld` | air-infra/opt/include/ssa_rename_handler.h:100-122 | Its SSA form returns that element when it carries the store and loses it when it has the versions alone, however the function is annotated: the definition has no operand for the old array. |
| `LostUse.BareRootLosesX` | air-infra/opt/include/ssa_simple_builder.h:306-313 | A program with such a loop, `for (i = x; 0; ...) {} return i`, whose SSA form does not mean the same, however it is annotated. |
| `LostUse.CopyReturnsX` | air-infra/opt/include/ssa_simple_builder.h:306-313 | That program returns x. |
| `LostUse.SsaReturnsZero` | air-infra/opt/include/ssa_simple_builder.h:306-313 | Its SSA form returns zero instead of x. |
| `Dominance.SpineCurrent` | air-infra/opt/include/ssa_rename_handler.h:170-210 | What is current behind a statement was current before it or is defined by it on every way through. |
| `Dominance.UsesDominated` | air-infra/opt/include/ssa_rename_ctx.h:68-119 | Every use, chi, mu and phi operand names a version defined on all ways to it, for a phi operand to the end of its edge. |
| `Dominance.FuncDominated` | air-infra/opt/src/ssa_build.cxx:49-57 | The same for a whole function, from the zero versions and the entry chis. |
| `Dominance.VersionsDefined` | air-infra/opt/include/ssa_rename_ctx.h:51-140 | Renaming hands out consecutive versions, and the definers of a statement in traversal order define exactly these. |
| `Dominance.DefinersDistinct` | air-infra/opt/include/ssa_rename_ctx.h:51-140 | No node, chi or phi is listed as a definer twice. |
| `Dominance.OneDefiner` | air-infra/opt/include/ssa_rename_ctx.h:51-140 | Each version of the whole table but the zero versions has exactly one definer, which defines no other version in it. |
| `SsaVerify.SimpleVerifierCtx.VerifyUse` | air-infra/opt/include/ssa_verify_ctx.h:75-83 | Succeeds if and only if the node carries a version of its symbol; nothing compares it with the stack. |
| `SsaVerify.SimpleVerifierCtx.VerifyDef` | air-infra/opt/include/ssa_verify_ctx.h:61-72 | Succeeds if and only if the node carries a numbered version of its symbol that names the node as definer; then that version is current. |
| `SsaVerify.SimpleVerifierCtx.VerifyExpr` | air-infra/opt/include/ssa_rename_handler.h:31-84 | Succeeds if and only if every visited load does. |
| `SsaVerify.SimpleVerifierCtx.VerifyChiList` | air-infra/opt/include/ssa_verify_ctx.h:155-188 | Succeeds if and only if every chi reads the version current before it and its result points back to it; then exactly the results are pushed, in order. |
| `SsaVerify.SimpleVerifierCtx.VerifyPhiOpnd` | air-infra/opt/include/ssa_verify_ctx.h:129-152 | Succeeds if and only if this operand of every phi is the current version of its symbol. |
| `SsaVerify.SimpleVerifierCtx.VerifyPhiList` | air-infra/opt/include/ssa_verify_ctx.h:103-126 | Succeeds if and only if every phi result is numbered and points back to its phi; then exactly the results are pushed. |
| `SsaVerify.SimpleVerifierCtx.VerifyMuList` | air-infra/opt/include/ssa_verify_ctx.h:191-208 | Succeeds if and only if every mu operand is the current version of its symbol. |
| `SsaVerify.SimpleVerifierCtx.VerifyBranch` | air-infra/opt/include/ssa_rename_handler.h:173-177 | Decides the checks of a branch and of its phi operands, and leaves the stacks as they were. |
| `SsaVerify.SimpleVerifierCtx.VerifyIf` | air-infra/opt/include/ssa_rename_handler.h:170-185 | For any mu, chi and phi lists, with at most one phi for a symbol at a statement: decides whether both branches are well formed from the versions current before them and each phi operand is the version at the end of its branch. |
| `SsaVerify.SimpleVerifierCtx.VerifyDoLoop` | air-infra/opt/include/ssa_rename_handler.h:188-210 | The same for a loop: operand 0 from before the header, operand 1 from behind the step. What a success rules out is in `SsaSound`. |
| `SsaVerify.SimpleVerifierCtx.VerifyStmt` | air-infra/opt/include/ssa_rename_handler.h:22-210 | For any such tables the replay with stacks and marks decides the stack-free definition of a well-formed statement. |
| `SsaVerify.SimpleVerifierCtx.VerifyFunc` | air-infra/opt/include/ssa_verify_ctx.h:35-208 | For any such tables the verifier succeeds if and only if all operands are the versions that reach them; then only the zero versions are left on its stacks. |
| `SsaChecks.RenamedPasses` | air-infra/opt/include/ssa_rename_handler.h:22-210 | A renamed statement is well formed, and the versions its tables define are those renaming had in hand. |
| `SsaChecks.FuncPasses` | air-infra/opt/src/ssa_build.cxx:49-68 | Build then verify: a renamed function passes every check. |
| `SsaChecks.StaleUsePasses` | air-infra/opt/include/ssa_verify_ctx.h:75-83 | What the verifier does not see: a load annotated with any other version of its symbol passes its check. |
| `SsaChecks.MissingPhiPasses` | air-infra/opt/include/ssa_verify_ctx.h:103-152 | Nor does it see missing phis: an `if` without phis passes when its parts do, and what its branches define stays current behind it. |
| `SsaSound.VerifiedSimulates` | air-infra/opt/include/ssa_verify_ctx.h:35-208 | What a success of the verifier means for a statement: with complete lists and loads that are current, the SSA form and the original end alike with the same store, for every fuel, however the versions are numbered. |
| `SsaSound.VerifiedPreserved` | air-infra/opt/include/ssa_verify_ctx.h:35-208 | The same for whole functions, arguments, stores and operators: with current loads the verifier is sound. |
| `SsaSound.RenamedCurrent` | air-infra/opt/include/ssa_rename_handler.h:22-210 | Renaming makes every load current, unless a loop starts or steps with a bare load. |
| `SsaSound.SingleAssignment` | air-infra/opt/include/ssa_verify_ctx.h:61-72 | Verified tables are in single-assignment form: no two definers have the same version, and none has a zero version. |
| `SsaSound.OperandsForced` | air-infra/opt/include/ssa_verify_ctx.h:129-208 | Two tables with the same results that both pass have the same operands in every statement. |
| `SsaSound.ReplacedOperandFails` | air-infra/opt/include/ssa_verify_ctx.h:129-208 | From tables that pass, replacing any operands of phis, chis or mus by others makes the verifier fail. |
| `SsaBuild.SymbolsAndChis` | air-infra/opt/src/ssa_build.cxx:26-40 | Phases 1 and 2: the plan is complete except for phis. |
| `SsaBuild.PlanPhases` | air-infra/opt/src/ssa_build.cxx:26-44 | Phases 1 to 3: complete symbols, mu, chi and phi lists for every function. |
| `SsaBuild.RenamePhase` | air-infra/opt/src/ssa_build.cxx:49-57 | Phase 4 annotates the function as the stack-free renaming says, with strictly increasing version numbers and no version more. |
| `SsaBuild.VerifyPhase` | air-infra/opt/src/ssa_build.cxx:62-68 | Phase 5 reports success on exactly the well-formed tables, whatever their mu, chi and phi lists, with at most one phi for a symbol at a statement. Where the lists are complete and the loads current, success means that the function keeps its meaning. |
| `SsaBuild.BuildSimple` | air-infra/opt/src/ssa_build.cxx:22-69 | The whole pass: complete plan, exactly the induction variables marked and their symbols on all loop roots, renamed, verified; every version of the table but the zero versions has exactly one definer; and, without bare loop roots, every load is current and the meaning of the function is preserved on every input. |
| `LiveIntervals.AddedIs` | air-infra/cg/src/live_interval.cxx:100-120 | Adding any range to an ordered list denotes exactly the union and leaves an ordered list. |
| `LiveIntervals.AddedSeparated` | air-infra/cg/src/live_interval.cxx:122-142 | The list still passes `Verify` if and only if no range ended exactly where the new one starts. |
| `LiveIntervals.AbsorbIs` | air-infra/cg/src/live_interval.cxx:85-98 | Fusing a range with those behind it denotes the union and leaves no fusible range behind it. |
| `LiveIntervals.LiveInterval.AddRange` | air-infra/cg/src/live_interval.cxx:100-120 | Computes that list; the assertion that the tail is not reached holds if and only if the list was empty or the new range starts before its end. |
| `LiveIntervals.LiveInterval.MergeSucc` | air-infra/cg/src/live_interval.cxx:85-98 | Fuses in place, and reports whether anything changed. |
| `LiveIntervals.StartedIs` | air-infra/cg/src/live_interval.cxx:73-83 | After a definition the value is held from there on and no longer before; an unused one is held for one step. |
| `LiveIntervals.LiveInterval.UpdateStartSlot` | air-infra/cg/src/live_interval.cxx:73-83 | Computes that list. |
| `LiveIntervals.AdvanceTo` | air-infra/include/air/cg/live_interval.h:442-449 | The first range that ends behind the slot. |
| `LiveIntervals.LiveInterval.Contain` | air-infra/include/air/cg/live_interval.h:455-462 | True if and only if some range holds the slot, despite the early exit. |
| `LiveIntervals.LiveInterval.IntersectPos` | air-infra/cg/src/live_interval.cxx:58-71 | The least slot both intervals hold; the invalid maximum if and only if there is none. |
| `LiveIntervals.LiveInterval.Verify` | air-infra/cg/src/live_interval.cxx:122-142 | Checking neighbours decides the property of all pairs. |
| `LiveIntervals.Insert` | air-infra/cg/src/live_interval.cxx:166-169 | Insertion keeps the list sorted by the comparator: by ranges, then by definition and pseudo register. |
| `LiveIntervals.PrecedesKeeps` | air-infra/include/air/cg/live_interval.h:530-533 | The comparator is a strict order: irreflexive and transitive. |
| `LiveIntervals.ListLessIff` | air-infra/include/air/cg/live_interval.h:281-283 | Range lists compare by the first place at which they differ; a list that ends there is the smaller one. |
| `LiveIntervals.SortedMeans` | air-infra/cg/src/live_interval.cxx:166-169 | In a sorted list intervals of the same ranges stand by definition and then by pseudo register, others by the first range in which they differ. |
| `Liveness.SlotsInOrder` | air-infra/cg/src/live_interval_builder.cxx:18-43 | Slots grow in layout order, by at least the slot distance. |
| `Liveness.LiveOverOp` | air-infra/cg/src/live_interval_builder.cxx:84-106 | Liveness, defined by paths, before an instruction from liveness after it. |
| `Liveness.LiveOverEdges` | air-infra/cg/src/live_interval_builder.cxx:45-62 | Liveness at the end of a block from the edges out of it, with phi operands read on their edge. |
| `Liveness.LiveMeetsDef` | air-infra/cg/src/live_interval_builder.cxx:123-161 | In strict SSA form a value that is live anywhere is live right after its definition. |
| `LiveIntervalBuilders.LiveIntervalBuilder.CalInstSlot` | air-infra/cg/src/live_interval_builder.cxx:18-43 | Every instruction has the slot of its position, phis and chis the slot of a block entry, blocks adjacent ranges. |
| `IntervalSweep.EnterBlock` | air-infra/cg/src/live_interval_builder.cxx:63-71 | A value live at the end of a block is held throughout it, and nowhere before. |
| `IntervalSweep.DefStep` | air-infra/cg/src/live_interval_builder.cxx:85-93 | A definition cuts the interval off in front of it; a dead one gets a slot of its own. |
| `IntervalSweep.DeadNowhere` | air-infra/cg/src/live_interval.cxx:73-81 | In strict form a value that is dead after its definition has no range yet, as the assertion in `Update_start_slot` expects. |
| `IntervalSweep.UseStep` | air-infra/cg/src/live_interval_builder.cxx:94-106 | A use holds the value from the block start; the tail of `Add_range` is never reached. |
| `LiveIntervalBuilders.LiveIntervalBuilder.HandleLiveOutValue` | air-infra/cg/src/live_interval_builder.cxx:45-71 | The live set becomes exactly the values live at the end of the block, each held throughout. |
| `LiveIntervalBuilders.LiveIntervalBuilder.HandleInst` | air-infra/cg/src/live_interval_builder.cxx:74-108 | After the backward walk the live set is exactly what is live behind the phis. |
| `LiveIntervalBuilders.LiveIntervalBuilder.HandlePhiRes` | air-infra/cg/src/live_interval_builder.cxx:110-121 | Phi results leave the live set, unless the block has at most one predecessor. |
| `LiveIntervalBuilders.LiveIntervalBuilder.PassLive` | air-infra/cg/src/live_interval_builder.cxx:152-159 | The live sets of the predecessors receive what is live into the block. |
| `LiveIntervalBuilders.LiveIntervalBuilder.GenLiveInterval` | air-infra/cg/src/live_interval_builder.cxx:123-161 | For every value: its interval holds every slot at which it is live or just defined and, in strict form, no other slot; it passes `Verify`. |
| `LiveIntervalBuilders.LiveIntervalBuilder.Update` | air-infra/cg/src/live_interval.cxx:159-171 | The list has every interval once, sorted by the comparator and so by start. |
| `LiveIntervalBuilders.LiveIntervalBuilder.Run` | air-infra/include/air/cg/live_interval_builder.h:35-47 | The three steps together. |
| `Allocation.PathCovered` | air-infra/cg/src/live_interval_builder.cxx:123-161 | If some path leads from a slot to a use of a value without passing its definition, every point of the path lies in the interval. |
| `Allocation.NothingMore` | air-infra/cg/src/live_interval_builder.cxx:123-161 | In strict form a slot of an interval is one at which its value is live or just defined. |
| `Lsras.Lsra.FreeUntil` | air-infra/cg/src/lsra.cxx:45-55 | A register is free up to the end of the interval if and only if no active interval holds it and no inactive one with it meets the interval; then it is free for ever. |
| `Lsras.Lsra.AllocFreeReg` | air-infra/cg/src/lsra.cxx:39-92 | Succeeds if and only if a usable register exists; takes the lowest-numbered usable caller-saved one, or else the lowest-numbered usable one. |
| `Lsras.Lsra.SweepActive` | air-infra/cg/src/lsra.cxx:102-117 | Intervals leave the active list only when over or in a hole; those left hold the position. |
| `Lsras.Lsra.SweepInactive` | air-infra/cg/src/lsra.cxx:119-133 | Intervals leave the inactive list only when over or when they hold the position, although one is passed over behind each reactivated one. |
| `Lsras.Lsra.UsableSafe` | air-infra/cg/src/lsra.cxx:45-64 | A usable register conflicts with no handled interval: active, inactive or over. |
| `Lsras.Lsra.NoneUsable` | air-infra/cg/src/lsra.cxx:80-90 | When no register is usable and nothing is inactive, more intervals overlap here than there are registers. |
| `Lsras.Lsra.EnoughRegs` | air-infra/cg/src/lsra.cxx:94-146 | When every interval has a register, no more overlap at any slot than there are registers. |
| `Lsras.Lsra.Assign` | air-infra/cg/src/lsra.cxx:135-143 | One round gives the interval the first open register, or none exactly when no register is open; it keeps handled intervals free of conflicts and listed under their registers. |
| `Lsras.Lsra.LinearScan` | air-infra/cg/src/lsra.cxx:94-146 | For intervals with or without holes the scan is first fit in the order of starts: each interval has the first register, caller-saved ones before others and then by number, that no earlier interval sharing a slot holds, and is blocked exactly when there is none. No two conflict; without holes nothing is blocked if and only if the pressure is low everywhere; the final verification succeeds. |
| `Lsras.Lsra.UsableOpen` | air-infra/cg/src/lsra.cxx:45-64 | The two lists miss nothing, despite the skipped elements: a register is usable if and only if no earlier interval that holds it shares a slot with the current one. |
| `Lsras.FirstFitUnique` | air-infra/cg/src/lsra.cxx:56-92 | First fit leaves no choice: ranges, classes and the target decide all registers. |
| `Lsras.FewRivals` | air-infra/cg/src/lsra.cxx:80-90 | An interval with fewer earlier intervals of its class sharing a slot than there are registers gets one. |
| `Lsras.LowPressureBlocks` | air-infra/cg/src/lsra.cxx:80-90 | Two registers, at most two intervals at each slot, and yet the third interval is blocked, because each of the others meets it behind a hole: with holes low pressure is not enough. |
| `Lsras.Lsra.VerifyDregLi` | air-infra/cg/src/lsra.cxx:152-176 | Succeeds if and only if neighbours in each register list are in order and disjoint. |
| `Lsras.Lsra.RowsJoin` | air-infra/include/air/cg/lsra.h:118-127 | Each interval is listed once under its register, in the order of their starts. |
| `Execution.OpAgrees` | air-infra/include/air/cg/preg2dreg_rewritter.h:75-92 | An instruction run on the registers of its values keeps every live value in its register, however many results it has; the rewriter sets one (`Rewriting.PregRewriter.RewriteDefs`). |
| `Execution.EdgeAgrees` | air-infra/cg/src/live_interval_builder.cxx:45-62 | Ideal copies for the phis of a block, all reading before any writes, keep every live value in its register on every edge. |
| `Execution.PhiNeeded` | air-infra/include/air/cg/preg2dreg_rewritter.h:101-104 | In strict form a phi whose result has a register is live at its block. |
| `Execution.RunsAgree` | air-infra/cg/src/live_interval_builder.cxx:45-106 | Whatever code stands on the edges: when it keeps live values in their registers edge by edge, every path does. |
| `Execution.ReadsAgree` | air-infra/cg/src/live_interval_builder.cxx:84-106 | Then every instruction on every run reads from registers what it reads from pseudo registers. |
| `Execution.SimulatesIff` | air-infra/cg/src/live_interval_builder.cxx:45-106 | The converse as well: all paths from all agreeing states agree if and only if the code on every edge keeps the agreement. |
| `Execution.ParallelRefines` | air-infra/cg/src/live_interval_builder.cxx:45-62 | In strict form separate registers and ideal copies are enough for every run to agree. |
| `Allocation.AllocatedSeparates` | air-infra/cg/src/lsra.cxx:94-146 | Values live or just defined at the same point never share a register. |
| `Allocation.BlockedCrowded` | air-infra/cg/src/lsra.cxx:80-90 | A value is left without a register only when each register of its class is held by a value whose interval shares a slot with its own. |
| `Allocation.StuckRivals` | air-infra/cg/src/lsra.cxx:80-90 | Such a value has, in strict form, at least as many rivals occupied at a common point as its class has registers, and its class has more values than registers. |
| `Rewriting.PregRewriter.RewriteDefs` | air-infra/include/air/cg/preg2dreg_rewritter.h:75-92 | Passes exactly when every allocated value is the first result of its defining instruction. |
| `Rewriting.FirstResultIff` | air-infra/include/air/cg/preg2dreg_rewritter.h:86-87 | Of the results of an instruction exactly those in the pseudo register of its first result pass, so an instruction that defines two makes the rewriter fail. |
| `Rewriting.PregRewriter.RewritePhi` | air-infra/include/air/cg/preg2dreg_rewritter.h:101-117 | Appends a move to each predecessor whose operand has another register number than the result, in operand order; fails exactly when an operand of a phi with a register has none. |
| `Rewriting.PregRewriter.Append` | air-infra/cg/src/cgir_node.cxx:179-186 | The move stands behind everything in its block; other blocks are unchanged. |
| `Rewriting.PregRewriter.Run` | air-infra/include/air/cg/preg2dreg_rewritter.h:74-127 | Fails exactly when one of the two assertions does; otherwise every block has received the moves of all phis but a last instruction, in layout, phi and operand order. |
| `Moves.RunIs` | air-infra/cg/src/cgir_node.cxx:179-186 | After moves executed one after the other a register holds what `Source` says some register held at first. |
| `Moves.DeliveredIff` | air-infra/cg/src/cgir_node.cxx:179-186 | Appended moves all deliver what their sources held at first if and only if none overwrites what a later one reads and none replaces the result of another. |
| `Emission.MoveWanted` | air-infra/include/air/cg/preg2dreg_rewritter.h:98-118 | On proper phis every emitted move brings some live phi result what it wants on an edge out of its block. |
| `Emission.SafeIff` | air-infra/include/air/cg/preg2dreg_rewritter.h:98-118 | For each block: the emitted moves are right on all its out-edges if and only if no target is the source of a later move, no target holds a value live into a successor that wants something else, and no move is missing. |
| `Emission.EdgesIff` | air-infra/include/air/cg/preg2dreg_rewritter.h:98-118 | Emitted moves keep the agreement on every edge, from every state, if and only if after them the register of each live value holds what the value wants. |
| `Emission.EmittedIff` | air-infra/include/air/cg/preg2dreg_rewritter.h:74-127 | The emitted form keeps all live values along every path from every agreeing state if and only if its moves are right. |
| `Emission.AllSafeIff` | air-infra/include/air/cg/preg2dreg_rewritter.h:74-127 | Safe moves are right, and on proper phis the right ones are safe, for whole graphs. |
| `EntryRuns.NoneMissing` | air-infra/include/air/cg/preg2dreg_rewritter.h:98-118 | When the phis are visited and their operands have the class of the result, no move is missing. |
| `EntryRuns.MovesExactly` | air-infra/include/air/cg/preg2dreg_rewritter.h:98-118 | A move is emitted into a block exactly for each operand of a phi that comes from there in another register, unless the phi is the last instruction of its block. |
| `EntryRuns.WrongMixes` | air-infra/include/air/cg/preg2dreg_rewritter.h:98-118 | Where the moves are not right, the register of a live value ends up with the value of another one that is live at the end of the block. |
| `EntryRuns.RefinesIff` | air-infra/include/air/cg/preg2dreg_rewritter.h:74-127 | From the entry, whatever the registers hold at first: in strict form, on proper phis of one class, when no two live values are always equal, the emitted form refines the original if and only if in every block no move overwrites what a later one reads and no target holds a value that goes another way. |
| `LostMoves.SwapPromises` | air-infra/include/air/cg/preg2dreg_rewritter.h:98-118 | A diamond whose phis swap two registers: strict, all occupied values separate, no assertion of the rewriter fails. |
| `LostMoves.SwapLoses` | air-infra/include/air/cg/preg2dreg_rewritter.h:98-118 | There the first emitted move overwrites what the second reads, and a run from the entry reads a wrong value. |
| `LostMoves.DetourPromises` | air-infra/include/air/cg/preg2dreg_rewritter.h:115-116 | A phi reached directly and on a detour, as strict and separate, with no failing assertion. |
| `LostMoves.DetourLoses` | air-infra/include/air/cg/preg2dreg_rewritter.h:115-116 | There the move for the phi is executed on the way to the detour as well and overwrites what that reads; a run from the entry reads a wrong value. |
| `Allocation.EmitMoves` | air-infra/include/air/cg/preg2dreg_rewritter.h:74-127 | The rewriter over all intervals: succeeds exactly when no assertion fails, and then has emitted the moves described above. |
| `Allocation.EmittedMeaning` | air-infra/include/air/cg/preg2dreg_rewritter.h:74-127 | For an allocation of a graph in strict form: the emitted form keeps all values if and only if its moves are right; safe moves make it refine the original, and on proper phis it is exactly the safe ones that keep all values. |
| `Pressure.HeldFitsPoints` | air-infra/cg/src/lsra.cxx:80-90 | When the intervals fit into the registers slot by slot, so do the occupied values point by point. |
| `Pressure.PointsFitHeld` | air-infra/cg/src/lsra.cxx:80-90 | In strict form the converse: intervals hold no more than is occupied. |
| `Pressure.UnbrokenHoleFree` | air-infra/cg/src/live_interval.cxx:100-120 | In strict form the interval of a value that is occupied without a break is one range. |
| `Allocation.AllocateRegisters` | air-infra/include/air/cg/lsra.h:70-91 | The chain as a whole, for every loop-free graph. Success means that values occupied at the same point have different registers of their class and that no point needs more than there are. In strict form with no value broken by a hole it succeeds if and only if no point needs more registers than there are. With holes it fails only when each register of a class is held by a value that meets one without; so it succeeds when every value has fewer rivals than there are registers, or every class no more values. Code comes out exactly when then no assertion of the rewriter fails; in strict form it keeps all values if and only if its moves are right, which on proper phis means safe, and from the entry it refines the original if and only if no move is in the way, under the conditions of `RefinesIff`; ideal copies would always do. |
| `PostOrder.DomBuilder.NumberPostOrder` | air-infra/opt/src/dom.cxx:42-54 | Numbers exactly the newly visited blocks, all reachable from the start, with consecutive numbers, the start last; along some path from it the numbers fall to each of them; an edge leads to a smaller number unless it closes a cycle. |
| `PostOrder.DomBuilder.ComputePostOrder` | air-infra/opt/src/dom.cxx:56-75 | Exactly the blocks the entry reaches are numbered 0 to n - 1, and the reverse order is the inverse permutation and starts with the entry. With or without cycles, a block that every path from the entry to another one passes has the larger number. |
| `PostOrder.DominatorAbove` | air-infra/opt/src/dom.cxx:77-98 | What dominates a block has a larger number, so parents in the dominator tree do, as going up from the smaller number needs. |
| `PostOrder.DomBuilder.GetIntersection` | air-infra/opt/src/dom.cxx:105-116 | Terminates with the nearest common ancestor when parents have larger numbers. |
| `PostOrder.DomBuilder.StepKeeps` | air-infra/opt/src/dom.cxx:108-113 | Going up from the smaller number keeps the common ancestors. |
| `RecordLayout.RecordType.Analyze` | air-infra/base/src/st_type.cxx:691-754 | A complete record is laid out once; each field starts where it must; a struct has the smallest size that is a multiple of its alignment and holds every field, a union the size `UnionExact` gives; set alignment and size are kept. |
| `RecordLayout.RecordType.PlaceFields` | air-infra/base/src/st_type.cxx:705-746 | Struct fields start at the least multiple of their alignment from the previous end on, consecutive bit-fields at the previous end; union fields at 0. |
| `RecordLayout.Disjoint` | air-infra/base/src/st_type.cxx:726-730 | Struct fields are ordered and do not overlap. |
| `RecordLayout.StructSmallest` | air-infra/base/src/st_type.cxx:726-754 | The end of the last field, rounded up, is the smallest multiple of the alignment that holds all fields. |
| `RecordLayout.MaxAlignReached` | air-infra/base/src/st_type.cxx:712-716 | The alignment of a record is that of a byte or of one of its fields. |
| `RecordLayout.UnionExact` | air-infra/base/src/st_type.cxx:705-753 | The size of every union: that of its largest field rounded up, or the farthest that a field with an unset alignment rounds the fields before it, whichever is larger. |
| `RecordLayout.UnionTightIff` | air-infra/base/src/st_type.cxx:705-753 | For every union: its size is that of its largest field rounded up to the largest alignment if and only if no field with an unset alignment, unless it joins a bit-field before it, rounds the largest field before it beyond that. |
| `RecordLayout.UnionSize` | air-infra/base/src/st_type.cxx:717-753 | The case in which all alignments are set: the roundings in the loop make no difference. |
| `RecordLayout.UnsetAlignmentInflates` | air-infra/base/src/st_type.cxx:712-716 | A union of two one-byte fields, the second without an alignment, takes 4096 bytes. |
| `StmtLists.Container.PrependAt` | air-infra/base/src/container.cxx:71-89 | Sequence insertion in front of a position; all other lists are unchanged; the inserted statement is returned. |
| `StmtLists.Container.Prepend` | air-infra/base/src/container.cxx:91-96 | The statement becomes the first one. |
| `StmtLists.Container.AppendAt` | air-infra/base/src/container.cxx:123-139 | Sequence insertion behind a statement. Behind the sentinel it fails, and leaves the statement linked on both sides of the sentinel. |
| `StmtLists.Container.Append` | air-infra/base/src/container.cxx:141-146 | The statement becomes the last one. |
| `StmtLists.Container.Remove` | air-infra/base/src/container.cxx:178-197 | Sequence deletion; the statement is in no list afterwards, and the one behind it is returned. |
| `StmtLists.Container.SetOwner` | air-infra/base/src/container.cxx:104-111 | All statements of a block, and only these, change owner. |
| `StmtLists.Container.PrependList` | air-infra/base/src/container.cxx:98-121 | The source list in front of the target list; the source is left empty. |
| `StmtLists.Container.AppendList` | air-infra/base/src/container.cxx:148-176 | The source list behind the target list; the source is left empty. |
| `Cloning.Container.CloneNodeTree` | air-infra/base/src/container.cxx:1398-1422 | A copy of a node tree: same shape, all links inside it right, no node twice, everything in it new; what was there before is unchanged, and a block still names the owner of the original. |
| `Cloning.Container.CloneBlockTree` | air-infra/base/src/container.cxx:1403-1414 | The statements of a block, copied in order into a block and sentinel of its own. |
| `Cloning.Container.CloneExprTree` | air-infra/base/src/container.cxx:1415-1421 | A node and its children. |
| `Cloning.Container.CloneStmtTree` | air-infra/base/src/container.cxx:1442-1458 | A copy of a statement with its tree, as complete; every block directly below it names the copy as its owner. The links of the copy itself are still those of the original. |
| `Cloning.Container.CloneStmtBlk` | air-infra/base/src/container.cxx:1383-1396 | An empty block with a sentinel of its own. |
| `Cloning.Container.Append` | air-infra/base/src/container.cxx:141-146 | The statement stands in front of the sentinel, linked both ways. |
| `Cloning.AppendStep` | air-infra/base/src/container.cxx:1409-1414 | Appending one more copy keeps everything copied so far. |
| `Cloning.SharesNothing` | air-infra/base/src/container.cxx:1366-1458 | Original and copy have no node and no statement in common. |
| `Cloning.OriginalKept` | air-infra/base/src/container.cxx:1366-1458 | Every tree that was held and linked before still is. |

## Left out

- Meaning.MeaningPreserved: one way only for functions with a bare load at a loop root; some of them keep their meaning by chance, and `LoadsKeptIff` is the exact condition for the uses.
- SsaChecks.FuncPasses: the verifier accepts more than renamed functions, because it does not compare uses with the stack (`StaleUsePasses`), does not ask for phis (`MissingPhiPasses`) and does not ask for consecutive versions.
- SsaVerify.SimpleVerifierCtx.VerifyStmt: a phi list with a symbol twice is not modelled, because the marks of that symbol would be pushed twice; phi insertion never makes one.
- PostOrder.DomBuilder.NumberPostOrder: any depth-first order meets the contract; that successors are visited in the order of their list is not stated, and nothing here depends on it.
- Occurrence lists and spill costs of live ranges, which nothing in the allocation reads.
- EntryRuns.RefinesIff: for runs from the entry the emitted form may keep the meaning by chance when two live values are always equal, as the results of two phis with the same operands are; the moves then being out of the way is sufficient only (`AllocateRegisters`). For runs from every agreeing state `EmittedIff` needs no such condition.
- Emission.SafeIff: for phis that read no chi and blocks that are a predecessor once; `EdgesIff` needs neither.
- RecordLayout.UnionTightIff: for alignments up to the unset one, which are all there are.
- RecordLayout.RecordType.Analyze: sizes are unbounded, 64-bit overflow is not modelled; the flag for simple records and names are not modelled.
- PostOrder.DomBuilder.GetIntersection: for a given tree of parents; `Compute_imm_dom`, dominance frontiers and the dominator tree are not modelled.
- StmtLists.Container.AppendAt: what a write through the null successor does, after an attempt to append behind the sentinel, is not modelled.
- Cloning.Container.CloneStmtTree: attributes, symbols and positions are one copied value; a block below a node that is no statement keeps the owner of the original, as in the source.
- Nested structures: a field is a part of a variable, not of another field.
- Subscripts of rank 3 and more: `Vsym_index` weights them by the shape, which is row-major only up to rank 2; element symbols are given.
- `ldo` and `sto`, which the builder asserts away, and address offsets below `ild` and `ist`, which it strips.
- `ret` without a value; aliasing through addresses and through calls, which the builder ignores.
- Spilling, splitting and live ranges of loops, which the allocator does not implement.
- Fixed registers of operands and their interference; the choice of a register class is a total function.
- Removal of the phis the rewriter has replaced, and the target instruction a move becomes.
- Phi insertion on the CGIR (`cgir_ssa.cxx`): the graphs given to the builder already have their phis.
- `ARRAY_TYPE` sizes and element counts.
- Arenas, identifier wrappers, interning tables, scopes and containers other than the current one.
- Option handling, tracing, printing, the assembly and C emitters, the IR generator and its verifier, HSSA.
