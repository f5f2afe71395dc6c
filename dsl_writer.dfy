/** DSLWriter: lowering of DSL variable descriptors to IR symbols and
    declaration statements, merging of the declarations of one surface
    statement, and reset of the compilation context.

    Each operation is a method over the mutable descriptor, statement handle
    and context, proved against a pure specification function (Bind, Lower,
    Merge) about which the properties are stated. */
module DSLWriter {
  import opened Wrappers
  import opened IR
  import opened Compilation

  // ---------------------------------------------------------------------
  // Specification of variable binding (DSLWriter::Var)
  // ---------------------------------------------------------------------

  /** The mutable part of a descriptor: whether binding was attempted, the
      non-owning reference to the resolved variable, the owned declaration
      statement and the not-yet-consumed initial value. */
  datatype VarState = VarState(initialized: bool, variable: Option<Variable>,
                               declaration: Option<VarDeclaration>, initialValue: Option<Expr>)

  /** What Var asserts on entry: an unattempted descriptor holds neither a
      variable nor a declaration. */
  predicate EmptyUntilAttempted(s: VarState) {
    s.initialized || (s.variable.None? && s.declaration.None?)
  }

  /** The descriptor invariant the writer keeps: nothing is held before an
      attempt, a parameter never owns a declaration, and an owned declaration
      declares exactly the variable the descriptor refers to. */
  predicate Consistent(s: VarState, storage: Storage) {
    && EmptyUntilAttempted(s)
    && (storage == Parameter ==> s.declaration.None?)
    && (s.declaration.Some? ==> s.variable == Some(s.declaration.value.variable))
  }

  /** The new descriptor state after Var and the conversion calls it made. */
  datatype Bound = Bound(state: VarState, calls: seq<Call>)

  /** Var on a descriptor with the given request and state, in a context whose
      conversion services are `cv` and whose call history is `history`. */
  function Bind(cv: Converter, history: seq<Call>, request: VarRequest, s: VarState): (r: Bound)
    requires EmptyUntilAttempted(s)
    // after any call the descriptor is marked as attempted
    ensures r.state.initialized
    // once attempted: no conversion call, nothing changes
    ensures s.initialized ==> r.state == s && r.calls == []
    // a first attempt resolves exactly once, and declares at most once
    ensures !s.initialized ==>
      && |r.calls| == (if request.storage == Parameter then 1 else 2)
      && r.calls[0] == ResolveCall(request)
    // parameters get no declaration, no variable reference, and keep their initial value
    ensures !s.initialized && request.storage == Parameter ==>
      && (forall c | c in r.calls :: !c.DeclareCall?)
      && r.state.declaration.None? && r.state.variable.None?
      && r.state.initialValue == s.initialValue
    // everything else: the initial value is handed to the declaration service and
    // released; a variable is referenced exactly when a declaration was produced
    ensures !s.initialized && request.storage != Parameter ==>
      var resolved := cv.resolve(history, request);
      var d := cv.declare(history + [ResolveCall(request)], resolved, s.initialValue);
      && r.calls[1] == DeclareCall(resolved, s.initialValue)
      && r.state.declaration == d
      && (r.state.variable.Some? <==> d.Some?)
      && (d.Some? ==> r.state.variable == Some(d.value.variable))
      && r.state.initialValue.None?
    ensures Consistent(s, request.storage) ==> Consistent(r.state, request.storage)
  {
    if s.initialized then
      Bound(s, [])
    else
      var resolved := cv.resolve(history, request);
      var first := [ResolveCall(request)];
      if request.storage == Parameter then
        Bound(s.(initialized := true), first)
      else
        var d := cv.declare(history + first, resolved, s.initialValue);
        var v := if d.Some? then Some(d.value.variable) else s.variable;
        Bound(VarState(true, v, d, None), first + [DeclareCall(resolved, s.initialValue)])
  }

  /** Two successive Var calls: the second makes no conversion call, leaves
      the descriptor as the first left it, and so returns the same variable
      reference as the first. */
  lemma VarIsIdempotent(cv: Converter, history: seq<Call>, request: VarRequest, s: VarState)
    requires EmptyUntilAttempted(s)
    ensures var first := Bind(cv, history, request, s);
            var second := Bind(cv, history + first.calls, request, first.state);
            && second.calls == []
            && second.state == first.state
  {
  }

  /** `k` successive Var calls on one descriptor: the final state and every
      conversion call made, in order. */
  function BindRepeatedly(cv: Converter, history: seq<Call>, request: VarRequest, s: VarState, k: nat): Bound
    requires EmptyUntilAttempted(s)
    decreases k
  {
    if k == 0 then
      Bound(s, [])
    else
      var first := Bind(cv, history, request, s);
      var rest := BindRepeatedly(cv, history + first.calls, request, first.state, k - 1);
      Bound(rest.state, first.calls + rest.calls)
  }

  /** However many times Var is called, the conversion services are called
      as by a single call, and the descriptor ends as after a single call:
      an error is never reported twice. */
  lemma {:induction false} RepeatedVarBindsOnce(cv: Converter, history: seq<Call>, request: VarRequest,
                                                s: VarState, k: nat)
    requires EmptyUntilAttempted(s) && k >= 1
    ensures BindRepeatedly(cv, history, request, s, k) == Bind(cv, history, request, s)
    decreases k
  {
    if k > 1 {
      var first := Bind(cv, history, request, s);
      RepeatedVarBindsOnce(cv, history + first.calls, request, first.state, k - 1);
      assert first.calls + [] == first.calls;
    }
  }

  // ---------------------------------------------------------------------
  // Specification of declaration lowering (DSLWriter::Declaration)
  // ---------------------------------------------------------------------

  /** The statement Declaration returns, the descriptor state it leaves and
      the conversion calls it made. */
  datatype Lowered = Lowered(stmt: Stmt, state: VarState, calls: seq<Call>)

  function Lower(cv: Converter, history: seq<Call>, request: VarRequest, s: VarState): (r: Lowered)
    requires EmptyUntilAttempted(s)
    // the result is always a well-formed statement: a declaration or a no-op
    ensures r.stmt.Nop? || r.stmt.VarDecl?
    // binding happened exactly as Var does it, and the declaration has left the descriptor
    ensures var b := Bind(cv, history, request, s);
      && r.calls == b.calls
      && r.state.initialized
      && r.state.variable == b.state.variable
      && r.state.declaration.None?
      // no declaration: a no-op, and the initial value is released
      && (b.state.declaration.None? ==> r.stmt == Nop && r.state.initialValue.None?)
      // otherwise the declaration itself is returned
      && (b.state.declaration.Some? ==>
            r.stmt == VarDecl(b.state.declaration.value) && r.state.initialValue == b.state.initialValue)
    ensures Consistent(s, request.storage) ==> Consistent(r.state, request.storage)
  {
    var b := Bind(cv, history, request, s);
    if b.state.declaration.None? then
      Lowered(Nop, b.state.(initialValue := None), b.calls)
    else
      Lowered(VarDecl(b.state.declaration.value), b.state.(declaration := None), b.calls)
  }

  /** A parameter descriptor lowers to a no-op, and loses its initial value. */
  lemma ParameterLowersToNop(cv: Converter, history: seq<Call>, request: VarRequest, s: VarState)
    requires Consistent(s, request.storage) && request.storage == Parameter
    ensures Lower(cv, history, request, s).stmt == Nop
    ensures Lower(cv, history, request, s).state.initialValue.None?
  {
  }

  /** The declaration service refuses to declare a variable that did not resolve. */
  ghost predicate RejectsUnresolved(cv: Converter) {
    forall h, init :: cv.declare(h, None, init) == None
  }

  /** A first attempt whose resolution fails degrades to a no-op and releases
      the initial value, provided the declaration service refuses an
      unresolved variable. */
  lemma FailedResolutionLowersToNop(cv: Converter, history: seq<Call>, request: VarRequest, s: VarState)
    requires RejectsUnresolved(cv)
    requires EmptyUntilAttempted(s) && !s.initialized
    requires cv.resolve(history, request) == None
    ensures Lower(cv, history, request, s).stmt == Nop
    ensures Lower(cv, history, request, s).state.initialValue.None?
    ensures Lower(cv, history, request, s).state.variable.None?
  {
  }

  // ---------------------------------------------------------------------
  // Specification of the compound merge (DSLWriter::AddVarDeclaration)
  // ---------------------------------------------------------------------

  /** The statement the handle holds after `decl` is merged into `existing`. */
  function Merge(existing: Option<Stmt>, decl: Stmt): (r: Stmt)
    // 1. nothing there, or only empty statements: the old statement is discarded
    ensures existing.None? || IsEmpty(existing.value) ==> r == decl
    // 2. an unbraced block: the declaration is appended last, nothing else changes
    ensures existing.Some? && !IsEmpty(existing.value) &&
            existing.value.Block? && !IsScope(existing.value.kind) ==>
      var prev := existing.value;
      && r.Block? && r.kind == prev.kind && r.pos == prev.pos
      && |r.children| == |prev.children| + 1
      && r.children[..|prev.children|] == prev.children
      && r.children[|prev.children|] == decl
    // 3. anything else, a braced block included: a two-child compound block at
    //    the old statement's position
    ensures existing.Some? && !IsEmpty(existing.value) &&
            !(existing.value.Block? && !IsScope(existing.value.kind)) ==>
      && r.Block? && r.kind == CompoundStatement && r.pos == PosOf(existing.value)
      && r.children == [existing.value, decl]
    // a braced block only ever comes out of a merge as the new statement itself
    ensures r.Block? && IsScope(r.kind) ==> r == decl
    // a merge into a non-empty statement keeps that statement's position
    ensures existing.Some? && !IsEmpty(existing.value) ==> PosOf(r) == PosOf(existing.value)
  {
    if existing.None? || IsEmpty(existing.value) then
      decl
    else if existing.value.Block? && !IsScope(existing.value.kind) then
      Block(existing.value.kind, existing.value.children + [decl], existing.value.pos)
    else
      Block(CompoundStatement, [existing.value, decl], PosOf(existing.value))
  }

  /** What an optional statement declares visibly. */
  function DeclaredOpt(s: Option<Stmt>): seq<Variable> {
    if s.None? then [] else Declared(s.value)
  }

  /** Merging never changes which variables are visible: afterwards exactly
      the old ones and then the new one's are, in order. In particular no
      declaration is moved into, or out of, a braced scope. */
  lemma MergeKeepsVisibleDeclarations(existing: Option<Stmt>, decl: Stmt)
    ensures Declared(Merge(existing, decl)) == DeclaredOpt(existing) + Declared(decl)
  {
    if existing.None? {
    } else if IsEmpty(existing.value) {
      EmptyDeclaresNothing(existing.value);
    } else if existing.value.Block? && !IsScope(existing.value.kind) {
      DeclaredSeqAppend(existing.value.children, decl);
    } else {
      assert [existing.value, decl][1..] == [decl];
      assert DeclaredSeq([decl]) == Declared(decl) + DeclaredSeq([]);
    }
  }

  /** The handle after merging `decls` one after another into `existing`. */
  function MergeAll(existing: Option<Stmt>, decls: seq<Stmt>): Option<Stmt>
    decreases |decls|
  {
    if decls == [] then existing
    else Some(Merge(MergeAll(existing, decls[..|decls| - 1]), decls[|decls| - 1]))
  }

  /** The declarations of one surface statement (`int a, b, c;`), merged into
      an absent handle, end as one flat compound block holding them all in
      order, failed (no-op) declarations after the first included. */
  lemma {:induction false} MergeAllIsFlat(decls: seq<Stmt>)
    requires |decls| >= 2 && decls[0].VarDecl?
    requires forall i :: 0 <= i < |decls| ==> decls[i].Nop? || decls[i].VarDecl?
    ensures MergeAll(None, decls) == Some(Block(CompoundStatement, decls, PosOf(decls[0])))
  {
    var n := |decls|;
    var init := decls[..n - 1];
    if n == 2 {
      assert MergeAll(None, init[..0]) == None;
      assert MergeAll(None, init) == Some(decls[0]);
      assert [decls[0], decls[1]] == decls;
    } else {
      MergeAllIsFlat(init);
      var b := Block(CompoundStatement, init, PosOf(decls[0]));
      assert init[0] in b.children && !IsEmpty(init[0]);
      assert init + [decls[n - 1]] == decls;
    }
  }

  /** Successive merges make visible exactly the merged declarations, in order. */
  lemma {:induction false} MergeAllKeepsVisibleDeclarations(existing: Option<Stmt>, decls: seq<Stmt>)
    ensures DeclaredOpt(MergeAll(existing, decls)) == DeclaredOpt(existing) + DeclaredSeq(decls)
    decreases |decls|
  {
    if decls != [] {
      var n := |decls|;
      var init := decls[..n - 1];
      MergeAllKeepsVisibleDeclarations(existing, init);
      MergeKeepsVisibleDeclarations(MergeAll(existing, init), decls[n - 1]);
      DeclaredSeqAppend(init, decls[n - 1]);
      assert init + [decls[n - 1]] == decls;
    }
  }

  /** Merging into a handle in the same state as `existing`, one declaration
      after another, is merging the first declaration and then the rest. */
  lemma {:induction false} MergeAllFirst(existing: Option<Stmt>, x: Stmt, decls: seq<Stmt>)
    ensures MergeAll(existing, [x] + decls) == MergeAll(Some(Merge(existing, x)), decls)
    decreases |decls|
  {
    var all := [x] + decls;
    if decls == [] {
      assert all[..0] == [];
    } else {
      var n := |decls|;
      assert all[..|all| - 1] == [x] + decls[..n - 1];
      assert all[|all| - 1] == decls[n - 1];
      MergeAllFirst(existing, x, decls[..n - 1]);
    }
  }

  /** A handle that holds an empty statement behaves as an absent one under
      any non-empty sequence of merges: the empty statement is discarded. */
  lemma {:induction false} EmptyHandleIsDiscarded(existing: Option<Stmt>, decls: seq<Stmt>)
    requires existing.None? || IsEmpty(existing.value)
    requires decls != []
    ensures MergeAll(existing, decls) == MergeAll(None, decls)
    decreases |decls|
  {
    var n := |decls|;
    if n == 1 {
      assert decls[..0] == [];
    } else {
      EmptyHandleIsDiscarded(existing, decls[..n - 1]);
    }
  }

  /** Failed declarations at the start of a surface statement do not keep
      their place: each is a no-op that the next merge discards. */
  lemma LeadingFailureIsDropped(decls: seq<Stmt>)
    requires decls != []
    ensures MergeAll(None, [Nop] + decls) == MergeAll(None, decls)
  {
    MergeAllFirst(None, Nop, decls);
    EmptyHandleIsDiscarded(Some(Nop), decls);
  }

  /** `int a = 1, b = a;`: the first merge yields a's declaration, the second a
      compound block of both at a's position; with a third, failed declaration
      the block gets a no-op in its place; with the first one failed, the
      block holds only the other two, at the second one's position. */
  lemma SurfaceStatementScenarios(a: VarDeclaration, b: VarDeclaration, c: VarDeclaration)
    ensures Merge(None, VarDecl(a)) == VarDecl(a)
    ensures Merge(Some(VarDecl(a)), VarDecl(b)) == Block(CompoundStatement, [VarDecl(a), VarDecl(b)], a.pos)
    ensures MergeAll(None, [VarDecl(a), Nop, VarDecl(c)])
         == Some(Block(CompoundStatement, [VarDecl(a), Nop, VarDecl(c)], a.pos))
    ensures MergeAll(None, [Nop, VarDecl(b), VarDecl(c)])
         == Some(Block(CompoundStatement, [VarDecl(b), VarDecl(c)], b.pos))
  {
    MergeAllIsFlat([VarDecl(a), Nop, VarDecl(c)]);
    LeadingFailureIsDropped([VarDecl(b), VarDecl(c)]);
    assert [Nop] + [VarDecl(b), VarDecl(c)] == [Nop, VarDecl(b), VarDecl(c)];
    MergeAllIsFlat([VarDecl(b), VarDecl(c)]);
  }

  // ---------------------------------------------------------------------
  // The mutable entities
  // ---------------------------------------------------------------------

  /** DSLVarBase: a variable as the DSL user wrote it, and what lowering has
      made of it so far. */
  class DSLVarBase {
    const pos: Position
    const modifiersPos: Position
    const modifiers: Modifiers
    const typ: Type
    const namePos: Position
    const name: string
    const storage: Storage
    /** Binding was attempted, whether or not it succeeded. */
    var initialized: bool
    /** Non-owning reference to the resolved variable. */
    var variable: Option<Variable>
    /** The owned declaration statement, until it is moved out. */
    var declaration: Option<VarDeclaration>
    var initialValue: Option<Expr>

    /** The arguments Variable::Convert receives for this descriptor. */
    function Request(): VarRequest {
      VarRequest(pos, modifiersPos, modifiers, typ, namePos, name, storage)
    }

    function State(): VarState
      reads this
    {
      VarState(initialized, variable, declaration, initialValue)
    }

    ghost predicate Valid()
      reads this
    {
      Consistent(State(), storage)
    }

    constructor (pos: Position, modifiersPos: Position, modifiers: Modifiers, typ: Type,
                 namePos: Position, name: string, storage: Storage, initialValue: Option<Expr>)
      ensures Valid()
      ensures Request() == VarRequest(pos, modifiersPos, modifiers, typ, namePos, name, storage)
      ensures State() == VarState(false, None, None, initialValue)
    {
      this.pos := pos;
      this.modifiersPos := modifiersPos;
      this.modifiers := modifiers;
      this.typ := typ;
      this.namePos := namePos;
      this.name := name;
      this.storage := storage;
      this.initialized := false;
      this.variable := None;
      this.declaration := None;
      this.initialValue := initialValue;
    }
  }

  /** DSLStatement: an owning handle to a statement, possibly empty. */
  class DSLStatement {
    var stmt: Option<Stmt>

    constructor (stmt: Option<Stmt>)
      ensures this.stmt == stmt
    {
      this.stmt := stmt;
    }
  }

  // ---------------------------------------------------------------------
  // The operations
  // ---------------------------------------------------------------------

  /** DSLWriter::Var: binds the descriptor on first use and returns the
      variable it refers to. */
  method Var(ctx: Context, d: DSLVarBase) returns (r: Option<Variable>)
    requires d.Valid()
    modifies d, ctx`history
    ensures d.Valid()
    ensures var b := Bind(ctx.converter, old(ctx.history), d.Request(), old(d.State()));
      d.State() == b.state && ctx.history == old(ctx.history) + b.calls
    ensures r == d.variable
  {
    if !d.initialized {
      d.initialized := true;
      var resolved := ctx.ConvertVariable(d.Request());
      if d.storage != Parameter {
        var init := d.initialValue;
        d.initialValue := None;
        d.declaration := ctx.ConvertDeclaration(resolved, init);
        if d.declaration.Some? {
          d.variable := Some(d.declaration.value.variable);
        }
      }
    }
    r := d.variable;
  }

  /** DSLWriter::CreateParameterVar: resolves the descriptor unconditionally,
      without looking at or changing its binding state. */
  method CreateParameterVar(ctx: Context, d: DSLVarBase) returns (r: Option<Variable>)
    modifies ctx`history
    ensures r == ctx.converter.resolve(old(ctx.history), d.Request())
    ensures ctx.history == old(ctx.history) + [ResolveCall(d.Request())]
    ensures unchanged(d)
  {
    r := ctx.ConvertVariable(d.Request());
  }

  /** DSLWriter::Declaration: binds the descriptor and moves its declaration
      out, or returns a no-op when there is none. */
  method Declaration(ctx: Context, d: DSLVarBase) returns (s: Stmt)
    requires d.Valid()
    modifies d, ctx`history
    ensures d.Valid()
    ensures var l := Lower(ctx.converter, old(ctx.history), d.Request(), old(d.State()));
      s == l.stmt && d.State() == l.state && ctx.history == old(ctx.history) + l.calls
  {
    var _ := Var(ctx, d);
    if d.declaration.None? {
      d.initialValue := None;
      s := Nop;
      return;
    }
    s := VarDecl(d.declaration.value);
    d.declaration := None;
  }

  /** DSLWriter::AddVarDeclaration: merges the declaration of `additional`
      into the statement `existing` holds. */
  method AddVarDeclaration(ctx: Context, existing: DSLStatement, additional: DSLVarBase)
    requires additional.Valid()
    modifies existing, additional, ctx`history
    ensures additional.Valid()
    ensures var l := Lower(ctx.converter, old(ctx.history), additional.Request(), old(additional.State()));
      && existing.stmt == Some(Merge(old(existing.stmt), l.stmt))
      && additional.State() == l.state
      && ctx.history == old(ctx.history) + l.calls
  {
    var stmt := existing.stmt;
    existing.stmt := None;
    if stmt.None? || IsEmpty(stmt.value) {
      var decl := Declaration(ctx, additional);
      existing.stmt := Some(decl);
      return;
    }
    if stmt.value.Block? && !IsScope(stmt.value.kind) {
      var decl := Declaration(ctx, additional);
      existing.stmt := Some(Block(stmt.value.kind, stmt.value.children + [decl], stmt.value.pos));
      return;
    }
    var pos := PosOf(stmt.value);
    var decl := Declaration(ctx, additional);
    existing.stmt := Some(Block(CompoundStatement, [stmt.value, decl], pos));
  }

  /** DSLWriter::Reset: the active scope is replaced by a fresh one, and the
      program elements and the modifiers pool are emptied. */
  method Reset(ctx: Context)
    requires ctx.Valid() && |ctx.symbolTable| > 0
    modifies ctx
    ensures ctx.Valid()
    ensures ctx.symbolTable == ReplaceTopScope(old(ctx.symbolTable), old(ctx.nextSerial))
    ensures forall i :: 0 <= i < |old(ctx.symbolTable)| ==>
              ctx.symbolTable[|ctx.symbolTable| - 1].serial != old(ctx.symbolTable)[i].serial
    ensures ctx.programElements == [] && ctx.modifiersPool == {}
    ensures ctx.history == old(ctx.history)
  {
    ctx.PopScope();
    ctx.PushScope();
    ctx.programElements := [];
    ctx.modifiersPool := {};
  }
}
