/**
 * The Statement kernel: a mutable object holding one statement tree, with
 * the kernel's editing operations.  Every operation that takes other
 * statements as arguments MOVES trees between distinct objects: whatever a
 * subtree is taken from is left as the empty BLOCK.
 */
module StatementKernel {
  import opened StatementTree

  class Statement {
    /** The statement this object currently holds. */
    var tree: Stmt

    ghost predicate Valid()
      reads this
    {
      WellFormed(tree)
    }

    /** A new statement is the empty BLOCK. */
    constructor ()
      ensures Valid() && tree == Empty()
    {
      tree := Empty();
    }

    /** A fresh statement of the same implementation, the empty BLOCK. */
    method NewInstance() returns (r: Statement)
      ensures fresh(r) && r.Valid() && r.tree == Empty()
    {
      r := new Statement();
    }

    /**
     * addToBlock: moves s into this BLOCK at position pos (0 up to the
     * length of the block); s is left as the empty BLOCK.
     */
    method AddToBlock(pos: nat, s: Statement)
      requires Valid() && s.Valid() && s != this
      requires tree.Block? && pos <= tree.LengthOfBlock() && !s.tree.Block?
      modifies this, s
      ensures Valid() && s.Valid()
      ensures tree == old(tree).Insert(pos, old(s.tree))
      ensures tree.LengthOfBlock() == old(tree.LengthOfBlock()) + 1
      ensures s.tree == Empty()
      ensures Size(tree) == old(Size(tree) + Size(s.tree))
    {
      InsertWellFormed(tree, pos, s.tree);
      InsertConservesSize(tree, pos, s.tree);
      tree := tree.Insert(pos, s.tree);
      s.tree := Empty();
    }

    /**
     * removeFromBlock: takes the statement at position pos out of this BLOCK
     * and returns it in a new object; the block is one shorter and the other
     * statements keep their order.
     */
    method RemoveFromBlock(pos: nat) returns (s: Statement)
      requires Valid() && tree.Block? && pos < tree.LengthOfBlock()
      modifies this
      ensures fresh(s) && Valid() && s.Valid()
      ensures s.tree == old(tree).children[pos] && !s.tree.Block?
      ensures tree == old(tree).Remove(pos)
      ensures tree.LengthOfBlock() == old(tree.LengthOfBlock()) - 1
      ensures Size(tree) + Size(s.tree) == old(Size(tree))
    {
      RemoveWellFormed(tree, pos);
      RemoveConservesSize(tree, pos);
      s := new Statement();
      s.tree := tree.children[pos];
      tree := tree.Remove(pos);
    }

    /**
     * assembleIf: this empty statement becomes IF c with body b; b, which
     * must be a BLOCK, is left as the empty BLOCK.
     */
    method AssembleIf(c: Condition, b: Statement)
      requires Valid() && b.Valid() && b != this
      requires tree == Empty() && b.tree.Block?
      modifies this, b
      ensures Valid() && b.Valid()
      ensures tree == If(c, old(b.tree)) && tree.KindOf() == IF
      ensures b.tree == Empty()
    {
      tree := If(c, b.tree);
      b.tree := Empty();
    }

    /**
     * disassembleIf: returns the test of this IF, moves its body into the
     * empty statement b and leaves this as the empty BLOCK.
     */
    method DisassembleIf(b: Statement) returns (c: Condition)
      requires Valid() && b.Valid() && b != this
      requires tree.If? && b.tree == Empty()
      modifies this, b
      ensures Valid() && b.Valid()
      ensures c == old(tree).test && b.tree == old(tree).body
      ensures tree == Empty()
    {
      c := tree.test;
      b.tree := tree.body;
      tree := Empty();
    }

    /**
     * assembleIfElse: this empty statement becomes IF_ELSE c with branches t
     * and e, which must be BLOCKs; both are left as the empty BLOCK.
     */
    method AssembleIfElse(c: Condition, t: Statement, e: Statement)
      requires Valid() && t.Valid() && e.Valid()
      requires t != this && e != this && t != e
      requires tree == Empty() && t.tree.Block? && e.tree.Block?
      modifies this, t, e
      ensures Valid() && t.Valid() && e.Valid()
      ensures tree == IfElse(c, old(t.tree), old(e.tree)) && tree.KindOf() == IF_ELSE
      ensures t.tree == Empty() && e.tree == Empty()
    {
      tree := IfElse(c, t.tree, e.tree);
      t.tree := Empty();
      e.tree := Empty();
    }

    /**
     * disassembleIfElse: returns the test of this IF_ELSE, moves its two
     * branches into the empty statements t and e and leaves this as the
     * empty BLOCK.
     */
    method DisassembleIfElse(t: Statement, e: Statement) returns (c: Condition)
      requires Valid() && t.Valid() && e.Valid()
      requires t != this && e != this && t != e
      requires tree.IfElse? && t.tree == Empty() && e.tree == Empty()
      modifies this, t, e
      ensures Valid() && t.Valid() && e.Valid()
      ensures c == old(tree).test
      ensures t.tree == old(tree).thenBody && e.tree == old(tree).elseBody
      ensures tree == Empty()
    {
      c := tree.test;
      t.tree := tree.thenBody;
      e.tree := tree.elseBody;
      tree := Empty();
    }

    /**
     * assembleWhile: this empty statement becomes WHILE c with body b; b,
     * which must be a BLOCK, is left as the empty BLOCK.
     */
    method AssembleWhile(c: Condition, b: Statement)
      requires Valid() && b.Valid() && b != this
      requires tree == Empty() && b.tree.Block?
      modifies this, b
      ensures Valid() && b.Valid()
      ensures tree == While(c, old(b.tree)) && tree.KindOf() == WHILE
      ensures b.tree == Empty()
    {
      tree := While(c, b.tree);
      b.tree := Empty();
    }

    /**
     * disassembleWhile: returns the test of this WHILE, moves its body into
     * the empty statement b and leaves this as the empty BLOCK.
     */
    method DisassembleWhile(b: Statement) returns (c: Condition)
      requires Valid() && b.Valid() && b != this
      requires tree.While? && b.tree == Empty()
      modifies this, b
      ensures Valid() && b.Valid()
      ensures c == old(tree).test && b.tree == old(tree).body
      ensures tree == Empty()
    {
      c := tree.test;
      b.tree := tree.body;
      tree := Empty();
    }

    /** assembleCall: this empty statement becomes a CALL of the given name. */
    method AssembleCall(name: string)
      requires Valid() && tree == Empty() && |name| > 0
      modifies this
      ensures Valid()
      ensures tree == Call(name) && tree.KindOf() == CALL
    {
      tree := Call(name);
    }

    /**
     * disassembleCall: returns the callee name of this CALL and leaves this
     * as the empty BLOCK.
     */
    method DisassembleCall() returns (name: string)
      requires Valid() && tree.Call?
      modifies this
      ensures Valid()
      ensures name == old(tree).name && |name| > 0
      ensures tree == Empty()
    {
      name := tree.name;
      tree := Empty();
    }

    /**
     * equals: whether this and other hold structurally equal statements,
     * whichever objects they are.
     */
    method Equals(other: Statement) returns (eq: bool)
      ensures eq <==> tree == other.tree
    {
      eq := StructurallyEqual(tree, other.tree);
    }
  }
}
