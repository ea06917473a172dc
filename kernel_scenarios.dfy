/**
 * Call sequences on Statement objects, each with what it guarantees.  Some
 * are the sequences the kernel's test fixture performs (IF and IF_ELSE round
 * trips, an IF's parts assembled into a WHILE, moves within and between
 * blocks); the others are inverse laws of the kernel (WHILE and CALL round
 * trips, remove then add at the same position).  Every move leaves its
 * source as the empty BLOCK.
 */
module KernelScenarios {
  import opened StatementTree
  import opened StatementKernel

  /**
   * Disassembling an IF into a fresh body and assembling a fresh statement
   * from the returned test and that body gives back a statement equal to the
   * original; the body object and the original are left empty.
   */
  method IfRoundTrip(s: Statement) returns (r: Statement, b: Statement)
    requires s.Valid() && s.tree.If?
    modifies s
    ensures fresh(r) && fresh(b) && r != b
    ensures r.Valid() && r.tree == old(s.tree)
    ensures b.tree == Empty() && s.tree == Empty()
  {
    b := s.NewInstance();
    var c := s.DisassembleIf(b);
    r := s.NewInstance();
    r.AssembleIf(c, b);
  }

  /** The same round trip for IF_ELSE: both branch objects end up empty. */
  method IfElseRoundTrip(s: Statement) returns (r: Statement, t: Statement, e: Statement)
    requires s.Valid() && s.tree.IfElse?
    modifies s
    ensures fresh(r) && fresh(t) && fresh(e)
    ensures r.Valid() && r.tree == old(s.tree)
    ensures t.tree == Empty() && e.tree == Empty() && s.tree == Empty()
  {
    t := s.NewInstance();
    e := s.NewInstance();
    var c := s.DisassembleIfElse(t, e);
    r := s.NewInstance();
    r.AssembleIfElse(c, t, e);
  }

  /** The same round trip for WHILE. */
  method WhileRoundTrip(s: Statement) returns (r: Statement, b: Statement)
    requires s.Valid() && s.tree.While?
    modifies s
    ensures fresh(r) && fresh(b) && r != b
    ensures r.Valid() && r.tree == old(s.tree)
    ensures b.tree == Empty() && s.tree == Empty()
  {
    b := s.NewInstance();
    var c := s.DisassembleWhile(b);
    r := s.NewInstance();
    r.AssembleWhile(c, b);
  }

  /**
   * The test and body taken out of an IF assemble into a WHILE with the
   * same test and body.
   */
  method IfPartsToWhile(s: Statement) returns (r: Statement, b: Statement)
    requires s.Valid() && s.tree.If?
    modifies s
    ensures fresh(r) && fresh(b) && r != b
    ensures r.Valid() && r.tree == While(old(s.tree).test, old(s.tree).body)
    ensures b.tree == Empty() && s.tree == Empty()
  {
    b := s.NewInstance();
    var c := s.DisassembleIf(b);
    r := s.NewInstance();
    r.AssembleWhile(c, b);
  }

  /**
   * disassembleCall hands back the name that assembleCall stores, so a
   * fresh statement assembled from it equals the original CALL.
   */
  method CallRoundTrip(s: Statement) returns (r: Statement, name: string)
    requires s.Valid() && s.tree.Call?
    modifies s
    ensures fresh(r) && r.Valid() && r.tree == old(s.tree)
    ensures name == old(s.tree).name && s.tree == Empty()
  {
    name := s.DisassembleCall();
    r := s.NewInstance();
    r.AssembleCall(name);
  }

  /**
   * Removing the statement at pos from a BLOCK and adding it back at pos
   * restores the block; the object that carried it is left empty.
   */
  method RemoveThenAdd(blk: Statement, pos: nat) returns (moved: Statement)
    requires blk.Valid() && blk.tree.Block? && pos < blk.tree.LengthOfBlock()
    modifies blk
    ensures fresh(moved) && moved.tree == Empty()
    ensures blk.Valid() && blk.tree == old(blk.tree)
  {
    moved := blk.RemoveFromBlock(pos);
    blk.AddToBlock(pos, moved);
    RemoveThenInsert(old(blk.tree), pos);
  }

  /**
   * Moving the statement at pos of one BLOCK to position dest of another:
   * the source loses it, the destination holds it at dest, and the carrier
   * object is left empty.
   */
  method MoveBetweenBlocks(src: Statement, pos: nat, dst: Statement, dest: nat)
    returns (moved: Statement)
    requires src.Valid() && dst.Valid() && src != dst
    requires src.tree.Block? && pos < src.tree.LengthOfBlock()
    requires dst.tree.Block? && dest <= dst.tree.LengthOfBlock()
    modifies src, dst
    ensures fresh(moved) && moved.tree == Empty()
    ensures src.Valid() && src.tree == old(src.tree).Remove(pos)
    ensures dst.Valid() && dst.tree == old(dst.tree).Insert(dest, old(src.tree).children[pos])
  {
    moved := src.RemoveFromBlock(pos);
    dst.AddToBlock(dest, moved);
  }

  /**
   * Taking the statement at position i out of a BLOCK and adding it back to
   * the same block at position j (the fixture moves the statement at 1 to
   * 0, and the one at 5 to position lengthOfBlock()-1 of the shortened
   * block, one before the end): it ends at j, the statements between the
   * two positions shift by one towards i, the rest stay put.
   */
  method MoveWithin(blk: Statement, i: nat, j: nat) returns (moved: Statement)
    requires blk.Valid() && blk.tree.Block?
    requires i < blk.tree.LengthOfBlock() && j < blk.tree.LengthOfBlock()
    modifies blk
    ensures fresh(moved) && moved.tree == Empty()
    ensures blk.Valid() && blk.tree.Block?
    ensures var cs := old(blk.tree).children;
      j <= i ==> blk.tree.children == cs[..j] + [cs[i]] + cs[j..i] + cs[i + 1..]
    ensures var cs := old(blk.tree).children;
      i < j ==> blk.tree.children == cs[..i] + cs[i + 1..j + 1] + [cs[i]] + cs[j + 1..]
  {
    moved := blk.RemoveFromBlock(i);
    blk.AddToBlock(j, moved);
    MoveWithinBlock(old(blk.tree), i, j);
  }
}
