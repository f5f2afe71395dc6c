/** The compilation context that DSL lowering works in: the symbol-table stack,
    the accumulated program elements, the modifiers pool, and the two
    conversion services the lowering calls into. */
module Compilation {
  import opened Wrappers
  import opened IR

  /** One lexical scope of the symbol-table stack. `serial` tells scopes apart,
      so that a freshly pushed scope is provably not one that was there. */
  datatype Scope = Scope(serial: nat, symbols: map<string, Variable>)

  /** A top-level program element (function, global declaration, ...). */
  datatype ProgramElement = ProgramElement(pos: Position, id: int)

  /** The arguments of Variable::Convert, taken from a descriptor. */
  datatype VarRequest = VarRequest(pos: Position, modifiersPos: Position, modifiers: Modifiers,
                                   typ: Type, namePos: Position, name: string, storage: Storage)

  /** One call into a conversion service, as recorded in the context's history. */
  datatype Call =
    | ResolveCall(request: VarRequest)
    | DeclareCall(resolved: Option<Variable>, initialValue: Option<Expr>)

  /** The conversion services, whose internals (type checking, symbol-table
      insertion, diagnostics) are not modelled. Each answers from the history
      of all earlier calls and its own arguments, so its answer may depend on
      everything that happened before, but nothing else. */
  datatype Converter = Converter(
    resolve: (seq<Call>, VarRequest) -> Option<Variable>,
    declare: (seq<Call>, Option<Variable>, Option<Expr>) -> Option<VarDeclaration>)

  /** The top scope is replaced by a fresh, empty one with the given serial. */
  function ReplaceTopScope(scopes: seq<Scope>, serial: nat): (r: seq<Scope>)
    requires |scopes| > 0
    ensures |r| == |scopes|
    ensures forall i :: 0 <= i < |scopes| - 1 ==> r[i] == scopes[i]
    ensures r[|r| - 1].serial == serial && r[|r| - 1].symbols == map[]
  {
    scopes[..|scopes| - 1] + [Scope(serial, map[])]
  }

  /** ThreadContext: the per-thread compilation state, passed explicitly. */
  class Context {
    const converter: Converter
    /** Every conversion call made so far, oldest first. */
    var history: seq<Call>
    /** The symbol-table stack; the active scope is the last one. */
    var symbolTable: seq<Scope>
    var programElements: seq<ProgramElement>
    var modifiersPool: set<Modifiers>
    /** The serial the next pushed scope receives. */
    var nextSerial: nat

    ghost predicate Valid()
      reads this
    {
      forall i :: 0 <= i < |symbolTable| ==> symbolTable[i].serial < nextSerial
    }

    constructor (converter: Converter)
      ensures Valid()
      ensures this.converter == converter && history == []
      ensures |symbolTable| == 1 && symbolTable[0].symbols == map[]
      ensures programElements == [] && modifiersPool == {}
    {
      this.converter := converter;
      history := [];
      symbolTable := [Scope(0, map[])];
      programElements := [];
      modifiersPool := {};
      nextSerial := 1;
    }

    /** SkSL::Variable::Convert. */
    method ConvertVariable(request: VarRequest) returns (v: Option<Variable>)
      modifies this`history
      ensures v == converter.resolve(old(history), request)
      ensures history == old(history) + [ResolveCall(request)]
    {
      v := converter.resolve(history, request);
      history := history + [ResolveCall(request)];
    }

    /** VarDeclaration::Convert. */
    method ConvertDeclaration(resolved: Option<Variable>, initialValue: Option<Expr>)
      returns (d: Option<VarDeclaration>)
      modifies this`history
      ensures d == converter.declare(old(history), resolved, initialValue)
      ensures history == old(history) + [DeclareCall(resolved, initialValue)]
    {
      d := converter.declare(history, resolved, initialValue);
      history := history + [DeclareCall(resolved, initialValue)];
    }

    /** SymbolTable::Pop: the active scope is discarded. */
    method PopScope()
      requires Valid() && |symbolTable| > 0
      modifies this`symbolTable
      ensures Valid()
      ensures symbolTable == old(symbolTable)[..|old(symbolTable)| - 1]
    {
      symbolTable := symbolTable[..|symbolTable| - 1];
    }

    /** SymbolTable::Push: a fresh, empty scope becomes the active one. */
    method PushScope()
      requires Valid()
      modifies this`symbolTable, this`nextSerial
      ensures Valid()
      ensures symbolTable == old(symbolTable) + [Scope(old(nextSerial), map[])]
      ensures forall i :: 0 <= i < |old(symbolTable)| ==> symbolTable[i].serial != old(nextSerial)
    {
      symbolTable := symbolTable + [Scope(nextSerial, map[])];
      nextSerial := nextSerial + 1;
    }
  }
}
