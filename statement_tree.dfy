/**
 * The value of a BL statement: a recursive tree whose root says which kind
 * of statement it is (BLOCK, IF, IF_ELSE, WHILE or CALL) and whose children
 * are the statements it owns.  Everything here is pure; the mutable kernel
 * object that holds one of these trees is in module StatementKernel.
 */
module StatementTree {

  datatype Option<T> = None | Some(value: T)

  /** The discriminant of a statement (the kernel's Kind enumeration). */
  datatype Kind = BLOCK | IF | IF_ELSE | WHILE | CALL

  /**
   * A test guarding IF, IF_ELSE and WHILE.  The statement never looks
   * inside it: it only stores it and hands it back, so it is a bare tag.
   */
  datatype Condition = Test(id: nat)

  /**
   * The label at the root of the mathematical model of a statement, the
   * triple (kind, test, call) of the kernel's documentation.  A slot the
   * kind does not use is None (written "?" in that documentation).
   */
  datatype Label = Label(kind: Kind, test: Option<Condition>, call: Option<string>)

  /**
   * The statement tree.  The body of IF and WHILE and both branches of
   * IF_ELSE are themselves statements, and WellFormed requires them to be
   * BLOCKs, exactly as in the labelled-tree model.
   */
  datatype Stmt =
    | Block(children: seq<Stmt>)
    | If(test: Condition, body: Stmt)
    | IfElse(test: Condition, thenBody: Stmt, elseBody: Stmt)
    | While(test: Condition, body: Stmt)
    | Call(name: string)
  {
    /** The root label of this statement in the labelled-tree model. */
    function Root(): (l: Label)
    {
      match this
      case Block(_) => Label(BLOCK, None, None)
      case If(c, _) => Label(IF, Some(c), None)
      case IfElse(c, _, _) => Label(IF_ELSE, Some(c), None)
      case While(c, _) => Label(WHILE, Some(c), None)
      case Call(n) => Label(CALL, None, Some(n))
    }

    /** The subtrees below the root, in order. */
    function Children(): (cs: seq<Stmt>)
    {
      match this
      case Block(cs) => cs
      case If(_, b) => [b]
      case IfElse(_, t, e) => [t, e]
      case While(_, b) => [b]
      case Call(_) => []
    }

    /** The kernel's kind(): the kind in the root label, one per variant. */
    function KindOf(): (k: Kind)
      ensures k == BLOCK <==> Block?
      ensures k == IF <==> If?
      ensures k == IF_ELSE <==> IfElse?
      ensures k == WHILE <==> While?
      ensures k == CALL <==> Call?
    {
      Root().kind
    }

    /** The kernel's lengthOfBlock(): how many statements this BLOCK holds. */
    function LengthOfBlock(): (n: nat)
      requires Block?
      ensures n == |Children()|
      ensures n == 0 <==> this == Empty()
    {
      |children|
    }

    /**
     * This BLOCK with s inserted at position pos: the statements before pos
     * stay where they are and those from pos on move one place right.
     */
    function Insert(pos: nat, s: Stmt): (r: Stmt)
      requires Block? && pos <= |children|
      ensures r.Block? && |r.children| == |children| + 1
      ensures r.children[pos] == s
      ensures r.children[..pos] == children[..pos]
      ensures r.children[pos + 1..] == children[pos..]
    {
      Block(children[..pos] + [s] + children[pos..])
    }

    /**
     * This BLOCK without the statement at position pos: the statements
     * before pos stay where they are and those after it move one place left.
     */
    function Remove(pos: nat): (r: Stmt)
      requires Block? && pos < |children|
      ensures r.Block? && |r.children| == |children| - 1
      ensures r.children[..pos] == children[..pos]
      ensures r.children[pos..] == children[pos + 1..]
    {
      Block(children[..pos] + children[pos + 1..])
    }
  }

  /** The empty BLOCK, compose((BLOCK, ?, ?), <>): what every fresh statement is. */
  function Empty(): (e: Stmt)
  {
    Block([])
  }

  /**
   * The inverse of Root and Children: builds the statement whose root label
   * is l and whose subtrees are cs, or None when the root's own shape is
   * wrong (wrong number of subtrees, a missing test or name, a body that is
   * not a BLOCK).  Slots the kind does not use are ignored.  It checks only
   * that shape, not WellFormed: a BLOCK holding a BLOCK, or a CALL with an
   * empty name, is still built.
   */
  function Compose(l: Label, cs: seq<Stmt>): (r: Option<Stmt>)
  {
    match l.kind
    case BLOCK =>
      Some(Block(cs))
    case IF =>
      if l.test.Some? && |cs| == 1 && cs[0].Block?
      then Some(If(l.test.value, cs[0])) else None
    case IF_ELSE =>
      if l.test.Some? && |cs| == 2 && cs[0].Block? && cs[1].Block?
      then Some(IfElse(l.test.value, cs[0], cs[1])) else None
    case WHILE =>
      if l.test.Some? && |cs| == 1 && cs[0].Block?
      then Some(While(l.test.value, cs[0])) else None
    case CALL =>
      if l.call.Some? && |cs| == 0 then Some(Call(l.call.value)) else None
  }

  /**
   * The structural invariant of a statement: a BLOCK never holds another
   * BLOCK directly, every body of IF, IF_ELSE and WHILE is a BLOCK, a CALL
   * names a non-empty callee, and all of this holds all the way down.
   */
  predicate WellFormed(s: Stmt)
  {
    match s
    case Block(cs) => forall i | 0 <= i < |cs| :: !cs[i].Block? && WellFormed(cs[i])
    case If(_, b) => b.Block? && WellFormed(b)
    case IfElse(_, t, e) => t.Block? && e.Block? && WellFormed(t) && WellFormed(e)
    case While(_, b) => b.Block? && WellFormed(b)
    case Call(n) => |n| > 0
  }

  /**
   * Equality of statements as the kernel's equals computes it: a fold over
   * the two trees comparing kinds, tests, callee names and the children
   * pairwise in order.  It coincides with equality of the tree values, so
   * it does not depend on which implementation holds the tree.
   */
  function StructurallyEqual(a: Stmt, b: Stmt): (r: bool)
    ensures r <==> a == b
  {
    match (a, b)
    case (Block(xs), Block(ys)) =>
      var pairwise := |xs| == |ys| && forall i | 0 <= i < |xs| :: StructurallyEqual(xs[i], ys[i]);
      assert pairwise ==> xs == ys by {
        if pairwise {
          assert forall i | 0 <= i < |xs| :: xs[i] == ys[i];
        }
      }
      pairwise
    case (If(c, x), If(d, y)) =>
      c == d && StructurallyEqual(x, y)
    case (IfElse(c, x1, x2), IfElse(d, y1, y2)) =>
      c == d && StructurallyEqual(x1, y1) && StructurallyEqual(x2, y2)
    case (While(c, x), While(d, y)) =>
      c == d && StructurallyEqual(x, y)
    case (Call(m), Call(n)) =>
      m == n
    case _ =>
      false
  }

  /** Every well-formed statement is recovered from its root label and its subtrees. */
  lemma ComposeRootChildren(s: Stmt)
    requires WellFormed(s)
    ensures Compose(s.Root(), s.Children()) == Some(s)
  {
  }

  /**
   * Whatever Compose builds has the requested kind and subtrees, and keeps
   * the test or callee name in the slot its kind uses.
   */
  lemma ComposeHasLabel(l: Label, cs: seq<Stmt>)
    requires Compose(l, cs).Some?
    ensures Compose(l, cs).value.KindOf() == l.kind
    ensures Compose(l, cs).value.Children() == cs
    ensures l.kind in {IF, IF_ELSE, WHILE} ==> Compose(l, cs).value.Root().test == l.test
    ensures l.kind == CALL ==> Compose(l, cs).value.Root().call == l.call
  {
  }

  /** A fresh statement is compose((BLOCK, ?, ?), <>), and it is well formed. */
  lemma EmptyIsEmptyBlock()
    ensures Compose(Label(BLOCK, None, None), []) == Some(Empty())
    ensures Empty().KindOf() == BLOCK && Empty().LengthOfBlock() == 0
    ensures WellFormed(Empty())
  {
  }

  /**
   * Inserting a well-formed statement that is not a BLOCK into a
   * well-formed BLOCK gives a well-formed BLOCK.
   */
  lemma InsertWellFormed(b: Stmt, pos: nat, s: Stmt)
    requires b.Block? && pos <= |b.children|
    requires WellFormed(b) && WellFormed(s) && !s.Block?
    ensures WellFormed(b.Insert(pos, s))
  {
  }

  /**
   * Removing from a well-formed BLOCK leaves a well-formed BLOCK, and the
   * statement removed is well formed and is not a BLOCK.
   */
  lemma RemoveWellFormed(b: Stmt, pos: nat)
    requires b.Block? && pos < |b.children|
    requires WellFormed(b)
    ensures WellFormed(b.Remove(pos))
    ensures WellFormed(b.children[pos]) && !b.children[pos].Block?
  {
  }

  /**
   * Removing the statement at pos and inserting it back at pos restores the
   * BLOCK exactly.
   */
  lemma RemoveThenInsert(b: Stmt, pos: nat)
    requires b.Block? && pos < |b.children|
    ensures b.Remove(pos).Insert(pos, b.children[pos]) == b
  {
  }

  /**
   * Inserting s at pos and removing at pos hands back s and restores the
   * BLOCK exactly.
   */
  lemma InsertThenRemove(b: Stmt, pos: nat, s: Stmt)
    requires b.Block? && pos <= |b.children|
    ensures b.Insert(pos, s).children[pos] == s
    ensures b.Insert(pos, s).Remove(pos) == b
  {
  }

  /** The number of statement nodes in s, s itself included. */
  function Size(s: Stmt): (n: nat)
    decreases s
  {
    match s
    case Block(cs) => 1 + TotalSize(cs)
    case If(_, b) => 1 + Size(b)
    case IfElse(_, t, e) => 1 + Size(t) + Size(e)
    case While(_, b) => 1 + Size(b)
    case Call(_) => 1
  }

  /** The number of statement nodes in all of cs. */
  function TotalSize(cs: seq<Stmt>): (n: nat)
    decreases cs
  {
    if cs == [] then 0 else Size(cs[0]) + TotalSize(cs[1..])
  }

  lemma {:induction false} TotalSizeAppend(xs: seq<Stmt>, ys: seq<Stmt>)
    ensures TotalSize(xs + ys) == TotalSize(xs) + TotalSize(ys)
    decreases xs
  {
    if xs == [] {
      assert xs + ys == ys;
    } else {
      assert (xs + ys)[1..] == xs[1..] + ys;
      TotalSizeAppend(xs[1..], ys);
    }
  }

  /**
   * addToBlock neither loses nor duplicates statements: the block after the
   * insertion holds exactly the nodes it held before plus those of s.
   */
  lemma {:induction false} InsertConservesSize(b: Stmt, pos: nat, s: Stmt)
    requires b.Block? && pos <= |b.children|
    ensures Size(b.Insert(pos, s)) == Size(b) + Size(s)
  {
    var cs := b.children;
    assert cs == cs[..pos] + cs[pos..];
    TotalSizeAppend(cs[..pos], cs[pos..]);
    TotalSizeAppend(cs[..pos] + [s], cs[pos..]);
    TotalSizeAppend(cs[..pos], [s]);
    assert TotalSize([s]) == Size(s) by {
      assert [s][1..] == [];
    }
  }

  /**
   * removeFromBlock neither loses nor duplicates statements: the nodes of
   * the shortened block and of the removed statement are those of the block.
   */
  lemma {:induction false} RemoveConservesSize(b: Stmt, pos: nat)
    requires b.Block? && pos < |b.children|
    ensures Size(b.Remove(pos)) + Size(b.children[pos]) == Size(b)
  {
    RemoveThenInsert(b, pos);
    InsertConservesSize(b.Remove(pos), pos, b.children[pos]);
  }

  /**
   * Removing the statement at i and inserting it at j of the shortened
   * block moves it to position j: everything between the two positions
   * shifts by one place towards i, and everything else stays put.
   */
  lemma MoveWithinBlock(b: Stmt, i: nat, j: nat)
    requires b.Block? && i < |b.children| && j < |b.children|
    ensures var cs := b.children;
      var r := b.Remove(i).Insert(j, cs[i]).children;
      (j <= i ==> r == cs[..j] + [cs[i]] + cs[j..i] + cs[i + 1..]) &&
      (i < j ==> r == cs[..i] + cs[i + 1..j + 1] + [cs[i]] + cs[j + 1..])
  {
    var cs := b.children;
    var rest := b.Remove(i).children;
    assert rest == cs[..i] + cs[i + 1..];
    if j <= i {
      assert rest[..j] == cs[..j];
      assert rest[j..] == cs[j..i] + cs[i + 1..];
    } else {
      assert rest[..j] == cs[..i] + cs[i + 1..j + 1];
      assert rest[j..] == cs[j + 1..];
    }
  }
}
