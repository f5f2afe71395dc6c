/** The part of the SkSL intermediate representation that declaration lowering
    produces and rewrites: variables, declaration statements, no-ops and blocks. */
module IR {
  import opened Wrappers

  /** A source offset; `NoPosition` is the default (invalid) position. */
  type Position = int

  const NoPosition: Position := -1

  /** Where a variable lives (SkSL's VariableStorage). */
  datatype Storage = Global | InterfaceBlock | Local | Parameter

  /** A modifier set (layout and qualifier flags), compared by value. */
  datatype Modifiers = Modifiers(layout: int, flags: set<string>)

  /** A resolved SkSL type, identified by its name. */
  datatype Type = Type(name: string)

  /** A resolved variable symbol. */
  datatype Variable = Variable(pos: Position, modifiers: Modifiers, typ: Type,
                               name: string, storage: Storage)

  /** An expression tree; its structure does not matter to lowering. */
  datatype Expr = Expr(pos: Position, id: int)

  /** The IR node built by VarDeclaration::Convert: one variable and its
      optional initial value. */
  datatype VarDeclaration = VarDeclaration(variable: Variable, value: Option<Expr>, pos: Position)

  /** Block::Kind. Only a braced block opens a new lexical scope. */
  datatype BlockKind = UnbracedBlock | CompoundStatement | BracedScope

  predicate IsScope(kind: BlockKind) {
    kind == BracedScope
  }

  /** The statement variants this core distinguishes; every other statement
      is `Other`. */
  datatype Stmt =
    | Nop
    | VarDecl(decl: VarDeclaration)
    | Block(kind: BlockKind, children: seq<Stmt>, pos: Position)
    | Other(pos: Position, id: int)

  /** Statement::fPosition. Nop::Make builds its node at the default position. */
  function PosOf(s: Stmt): Position {
    match s
    case Nop => NoPosition
    case VarDecl(d) => d.pos
    case Block(_, _, p) => p
    case Other(p, _) => p
  }

  /** Statement::isEmpty: a no-op is empty, a block is empty when all of its
      children are, and no other statement is. */
  predicate IsEmpty(s: Stmt): (r: bool)
    // a no-op is always empty, a declaration never
    ensures s.Nop? ==> r
    ensures s.VarDecl? ==> !r
    // a block that holds a declaration is not empty
    ensures s.Block? && (exists c | c in s.children :: c.VarDecl?) ==> !r
  {
    match s
    case Nop => true
    case Block(_, children, _) => forall c | c in children :: IsEmpty(c)
    case _ => false
  }

  /** The variables a statement makes visible to the statements that follow
      it in the same scope. A braced block hides its declarations; an
      unbraced or compound block exposes those of its children, in order. */
  function Declared(s: Stmt): seq<Variable>
    decreases s
  {
    match s
    case VarDecl(d) => [d.variable]
    case Block(kind, children, _) => if IsScope(kind) then [] else DeclaredSeq(children)
    case _ => []
  }

  /** The variables a sequence of sibling statements makes visible, in order. */
  function DeclaredSeq(ss: seq<Stmt>): seq<Variable>
    decreases ss
  {
    if ss == [] then [] else Declared(ss[0]) + DeclaredSeq(ss[1..])
  }

  /** An empty statement declares nothing visible. */
  lemma {:induction false} EmptyDeclaresNothing(s: Stmt)
    requires IsEmpty(s)
    ensures Declared(s) == []
    decreases s
  {
    match s
    case Nop =>
    case Block(kind, children, _) =>
      if !IsScope(kind) {
        EmptySiblingsDeclareNothing(children);
      }
  }

  /** Siblings that are all empty declare nothing visible. */
  lemma {:induction false} EmptySiblingsDeclareNothing(ss: seq<Stmt>)
    requires forall c | c in ss :: IsEmpty(c)
    ensures DeclaredSeq(ss) == []
    decreases ss
  {
    if ss != [] {
      EmptyDeclaresNothing(ss[0]);
      EmptySiblingsDeclareNothing(ss[1..]);
    }
  }

  /** Appending a statement to a sibling sequence appends what it declares. */
  lemma {:induction false} DeclaredSeqAppend(ss: seq<Stmt>, t: Stmt)
    ensures DeclaredSeq(ss + [t]) == DeclaredSeq(ss) + Declared(t)
  {
    if ss == [] {
      assert ss + [t] == [t];
    } else {
      assert (ss + [t])[0] == ss[0];
      assert (ss + [t])[1..] == ss[1..] + [t];
      DeclaredSeqAppend(ss[1..], t);
    }
  }
}
