# BL Statement kernel, modelled in Dafny

This project models the `Statement` kernel of the BL block language: a
mutable object holding one statement tree, where a statement is a BLOCK (an
ordered sequence of statements), an IF (test + body), an IF_ELSE (test + two
branches), a WHILE (test + body) or a CALL (callee name). The kernel's
operations are `kind`, `lengthOfBlock`, `addToBlock`, `removeFromBlock`,
`newInstance`, `assembleIf`/`disassembleIf`, `assembleIfElse`/`disassembleIfElse`,
`assembleWhile`/`disassembleWhile`, `assembleCall`/`disassembleCall`, and
structural `equals`. The JUnit fixture `test/StatementTest.java`
exercises a kernel imported from the external `components` library
(test/StatementTest.java:8-11) and contains no implementation of it. The
model therefore states the contract that fixture checks. Both the
implementation under test and the reference implementation must satisfy it.

- `statement_tree.dfy`, module `StatementTree`, is the pure layer:
  - the `Stmt` datatype, and its view as a labelled tree: `Root`, `Children`, and their inverse `Compose`. This is the `compose((BLOCK, ?, ?), <>)` model of the kernel's documentation.
  - `KindOf` (the kernel's `kind()`), `LengthOfBlock`, and the block edits `Insert` and `Remove`.
  - the structural invariant `WellFormed`: a BLOCK never directly holds a BLOCK, every body is a BLOCK, and a callee name is non-empty.
  - structural equality.
  - `Size`, the number of statement nodes in a tree, used to state that a move neither loses nor duplicates statements.
- `statement_kernel.dfy`, module `StatementKernel`, holds the class `Statement`.
  - It has one field `tree`, which the kernel methods update in place.
  - Every method that takes statement arguments moves subtrees between distinct objects.
  - It leaves each source it took from as the empty BLOCK.
- `kernel_scenarios.dfy`, module `KernelScenarios`, runs call sequences on `Statement` objects. Two groups:
  - Sequences the fixture performs, whose contracts state what its assertions check: `IfRoundTrip`, `IfElseRoundTrip`, `IfPartsToWhile`, `MoveWithin` (remove at one position, add at another of the same block), `MoveBetweenBlocks`.
  - Inverse laws of the kernel that the fixture does not perform as a sequence: `WhileRoundTrip` and `CallRoundTrip` (the fixture only disassembles a WHILE or a CALL), and `RemoveThenAdd` (no fixture test is written as a put-back; whether testAddToBlockRightSide restores the block depends on the data file's length).

Design decisions:
- `Condition` is an opaque tag (`Test(id)`). The kernel only stores it and returns it. The condition sub-language is not part of this model.
- The assemble operations require an empty-BLOCK receiver. The disassemble operations require empty-BLOCK output arguments. The fixture always passes fresh `newInstance()` results there, so it never tests anything wider.
- `addToBlock` requires that the statement being added is not a BLOCK. Without this, `WellFormed` could not hold: a BLOCK never holds a BLOCK directly.
- Positions are `nat`, so the `0 <= pos` half of each position precondition is carried by the type.

## Model

| member | source | states |
|---|---|---|
| StatementTree.Stmt.KindOf | test/StatementTest.java:123-145 | kind() is BLOCK, IF, IF_ELSE, WHILE or CALL exactly when the statement is that variant |
| StatementTree.Stmt.LengthOfBlock | test/StatementTest.java:427-445 | the length of a BLOCK is its number of subtrees, and it is 0 exactly when the block is the empty BLOCK |
| StatementTree.Stmt.Insert | test/StatementTest.java:322-343 | inserting at pos gives a block one longer, with the new statement at pos, the earlier statements unchanged and the later ones shifted right in order |
| StatementTree.Stmt.Remove | test/StatementTest.java:403-421 | removing at pos gives a block one shorter, with the earlier statements unchanged and the later ones shifted left in order |
| StatementTree.StructurallyEqual | test/StatementTest.java:103-118 | equality as a fold comparing kind, test, name and children pairwise in order holds exactly when the two trees are equal, whatever implementation holds them |
| StatementTree.ComposeRootChildren | test/StatementTest.java:35-42 | every well-formed statement is compose(root label, children) of the labelled-tree model |
| StatementTree.ComposeHasLabel | test/StatementTest.java:35-42 | a statement built by compose has the requested kind and subtrees, and the requested test (IF, IF_ELSE, WHILE) or callee name (CALL) |
| StatementTree.EmptyIsEmptyBlock | test/StatementTest.java:40 | the empty statement is compose((BLOCK, ?, ?), <>): kind BLOCK, length 0, well formed |
| StatementTree.InsertWellFormed | test/StatementTest.java:238-270 | adding a well-formed non-BLOCK statement to a well-formed BLOCK keeps it well formed |
| StatementTree.RemoveWellFormed | test/StatementTest.java:349-375 | removing from a well-formed BLOCK leaves it well formed and hands back a well-formed statement that is not a BLOCK |
| StatementTree.RemoveThenInsert | test/StatementTest.java:403-421 | inverse law of the two block edits, not a fixture sequence: removing the statement at pos and inserting it back at pos restores the block exactly |
| StatementTree.InsertThenRemove | test/StatementTest.java:322-343 | inverse law of the two block edits, not a fixture sequence: inserting s at pos puts s at pos, and removing at pos afterwards restores the block exactly |
| StatementTree.MoveWithinBlock | test/StatementTest.java:276-316 | removing the statement at i and inserting it at j of the shortened block puts it at j, shifts the statements between i and j by one towards i and leaves the rest in place |
| StatementTree.InsertConservesSize | test/StatementTest.java:322-343 | inserting s into a block yields exactly the nodes of the block plus those of s: a move loses and duplicates nothing |
| StatementTree.RemoveConservesSize | test/StatementTest.java:403-421 | the shortened block and the removed statement together hold exactly the nodes of the original block |
| StatementKernel.Statement.constructor | test/StatementTest.java:103-118 | a new statement is the empty BLOCK |
| StatementKernel.Statement.NewInstance | test/StatementTest.java:322-343 | newInstance returns a fresh object holding the empty BLOCK |
| StatementKernel.Statement.AddToBlock | test/StatementTest.java:322-343 | the receiver becomes its old block with the argument's old tree inserted at pos, one longer, with no node lost or duplicated; the argument becomes the empty BLOCK |
| StatementKernel.Statement.RemoveFromBlock | test/StatementTest.java:381-421 | returns a fresh object holding the old child at pos (never a BLOCK); the receiver loses that child, one shorter, the others in order, and the two together hold exactly the nodes the receiver held |
| StatementKernel.Statement.AssembleIf | test/StatementTest.java:451-474 | the empty receiver becomes IF with the given test and the argument's old block as body; the argument becomes the empty BLOCK |
| StatementKernel.Statement.DisassembleIf | test/StatementTest.java:509-532 | returns the IF's test, the empty argument receives the body, the receiver becomes the empty BLOCK |
| StatementKernel.Statement.AssembleIfElse | test/StatementTest.java:567-594 | the empty receiver becomes IF_ELSE with the given test and the two arguments' old blocks as branches; both arguments become the empty BLOCK |
| StatementKernel.Statement.DisassembleIfElse | test/StatementTest.java:633-660 | returns the IF_ELSE's test, the two empty arguments receive the then and else branches, the receiver becomes the empty BLOCK |
| StatementKernel.Statement.AssembleWhile | test/StatementTest.java:699-726 | the empty receiver becomes WHILE with the given test and the argument's old block as body; the argument becomes the empty BLOCK |
| StatementKernel.Statement.DisassembleWhile | test/StatementTest.java:765-789 | returns the WHILE's test, the empty argument receives the body, the receiver becomes the empty BLOCK |
| StatementKernel.Statement.AssembleCall | test/StatementTest.java:825-844 | the empty receiver becomes a CALL of the given non-empty name |
| StatementKernel.Statement.DisassembleCall | test/StatementTest.java:850-870 | returns the CALL's (non-empty) name and leaves the receiver as the empty BLOCK |
| StatementKernel.Statement.Equals | test/StatementTest.java:103-118 | true exactly when the two objects hold equal trees |
| KernelScenarios.IfRoundTrip | test/StatementTest.java:451-474 | disassembleIf into a fresh body, then assembleIf on a fresh statement, rebuilds the original IF and leaves the body object and the original empty |
| KernelScenarios.IfElseRoundTrip | test/StatementTest.java:567-594 | the same round trip for IF_ELSE, leaving both branch objects empty |
| KernelScenarios.WhileRoundTrip | test/StatementTest.java:699-789 | inverse law, not a fixture sequence (the fixture tests assembleWhile and disassembleWhile separately): disassembleWhile then assembleWhile on a fresh statement rebuilds the WHILE and empties the body object and the source |
| KernelScenarios.IfPartsToWhile | test/StatementTest.java:699-726 | the test and body taken from an IF assemble into a WHILE with that test and body, leaving the body object empty |
| KernelScenarios.CallRoundTrip | test/StatementTest.java:825-870 | inverse law, not a fixture sequence (the fixture tests assembleCall and disassembleCall separately): disassembleCall returns the stored name, and assembleCall of it on a fresh statement rebuilds the original CALL |
| KernelScenarios.RemoveThenAdd | test/StatementTest.java:381-421 | inverse law, not a fixture sequence: removeFromBlock(pos) followed by addToBlock(pos, result) restores the block and leaves the carrier object empty |
| KernelScenarios.MoveWithin | test/StatementTest.java:276-316 | removeFromBlock(i) then addToBlock(j, result) on the same block (in the fixture: 1 to 0, and 5 to position lengthOfBlock()-1 of the shortened block, one before the end) gives the children of MoveWithinBlock and leaves the carrier object empty |
| KernelScenarios.MoveBetweenBlocks | test/StatementTest.java:238-270 | removing from one block and adding to another moves exactly that statement: the source is one shorter, the destination holds it at the chosen position |

## Left out

- Parsing: `parseBlock` and `parse`. The parser, its keyword set and the tokenizer belong to the external library and are not part of this model.
- Reading statements from files through `SimpleReader1L` and `Tokenizer.tokens`, and the data files those readers load. These are file I/O on data not part of this model. Facts that depend on the contents of those files are not modelled either, such as which index of a sample file holds a WHILE.
- The `main` method. It prints to the console and is not part of the kernel's contract.
- The internals of `Condition`. It is an opaque tag whose values belong to the external condition sub-language.
- Running the same checks against two implementation classes. The model states the one contract both must satisfy. `Equals` compares trees whatever objects hold them.
- Java `assert`-style checking of preconditions. Precondition violations are the caller's error, so they are `requires` clauses. They are not modelled as an error result.
- Which characters a callee name may contain. The model requires only that it be non-empty. The identifier rules belong to the tokenizer, which is not part of this model.
