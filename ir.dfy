/**
 * The intermediate representation the instruction selector consumes: an immutable tree of
 * expressions and statements per function. Only the shapes the decoder distinguishes are kept;
 * operator codes, conversion types and closure indices stay opaque numbers.
 */
module IR {
  import opened Options

  /** IR::Const::type, as far as the decoder looks at it. */
  datatype ConstType = BoolType | NumberType | UndefinedType | NullType

  /** IR::Name::Builtin: the intrinsic a name stands for, or builtin_invalid for an ordinary name. */
  datatype Builtin =
    | BuiltinInvalid
    | BuiltinTypeof
    | BuiltinDelete
    | BuiltinThrow
    | BuiltinRethrow
    | BuiltinUnwindException
    | BuiltinPushCatchScope
    | BuiltinForeachIteratorObject
    | BuiltinForeachNextPropertyName
    | BuiltinPushWithScope
    | BuiltinPopScope
    | BuiltinDeclareVars
    | BuiltinDefineArray
    | BuiltinDefineObjectLiteral
    | BuiltinSetupArgumentObject
    | BuiltinConvertThisToObject
    | BuiltinQmlContext
    | BuiltinQmlImportedScriptsObject

  /** IR::Member::MemberKind. */
  datatype MemberKind =
    | UnspecifiedMember
    | MemberOfEnum
    | MemberOfQmlScopeObject
    | MemberOfQmlContextObject
    | MemberOfIdObjectsArray
    | MemberOfSingletonObject

  /** The resolved QML property a member expression may carry (QQmlPropertyData). */
  datatype PropertyData = PropertyData(coreIndex: int, notifyIndex: int, isConstant: bool)

  datatype Expr =
    | Temp(slot: nat)
    | ArgLocal(slot: nat)
    | Const(ctype: ConstType, value: int)
    | Name(id: Option<string>, builtin: Builtin, qmlSingleton: bool)
    | Member(base: Expr, name: string, property: Option<PropertyData>, kind: MemberKind,
             attachedPropertiesId: int, idIndex: int)
    | Subscript(base: Expr, index: Expr)
    | Unop(op: nat, expr: Expr)
    | Binop(op: nat, left: Expr, right: Expr)
    | Call(base: Expr, args: seq<Expr>)
    | New(base: Expr, args: seq<Expr>)
    | Closure(functionIndex: nat)
    | String(text: string)
    | RegExp(pattern: string, flags: nat)
    | Convert(expr: Expr, targetType: nat)
  {
    /** asTemp() || asArgLocal(): a stack or argument slot. */
    predicate IsSlot() { Temp? || ArgLocal? }

    /** asTemp() || asConst() || asArgLocal(): a value the backend can use directly. */
    predicate IsValue() { Temp? || Const? || ArgLocal? }
  }

  /** The statements the decoder visits. Jumps, returns and phis go to other visitors. */
  datatype Stmt =
    | Move(target: Expr, source: Expr, swap: bool)
    | Exp(expr: Expr)

  /** A function's two QML property dependency maps, core index to notify index: the
      properties of the context object and of the scope object its code reads. */
  datatype DependencyMaps = DependencyMaps(context: map<int, int>, scope: map<int, int>)

  /** IR::Function: its identity and body are fixed; the two dependency maps are filled in
      by the decoder while it selects instructions for the function. */
  class Function {
    const name: string
    const line: int
    const column: int
    const statements: seq<Stmt>
    var contextObjectPropertyDependencies: map<int, int>
    var scopeObjectPropertyDependencies: map<int, int>

    constructor (name: string, line: int, column: int, statements: seq<Stmt>)
      ensures this.name == name && this.line == line && this.column == column
      ensures this.statements == statements
      ensures contextObjectPropertyDependencies == map[] && scopeObjectPropertyDependencies == map[]
    {
      this.name := name;
      this.line := line;
      this.column := column;
      this.statements := statements;
      contextObjectPropertyDependencies := map[];
      scopeObjectPropertyDependencies := map[];
    }

    function Dependencies(): DependencyMaps
      reads this
    {
      DependencyMaps(contextObjectPropertyDependencies, scopeObjectPropertyDependencies)
    }
  }
}
