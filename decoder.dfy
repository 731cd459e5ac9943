/**
 * IRDecoder: the instruction selector's first-match dispatch from IR statements to the
 * backend's hooks. The backend is represented by the hook calls it receives, as `Op` values
 * in call order. The dispatch itself is stated as functions (SelectMove, SelectExp,
 * SelectBuiltin); the class IRDecoder performs it the way the source does, appending the
 * selected hook calls to its log, recording QML property dependencies on the function being
 * compiled, and walking the argument lists of `declare_vars` and `define_object_literal` with
 * loops.
 */
module InstructionSelection {
  import opened Options
  import opened IR

  /** Why selection stops: the fatal path of the source. */
  datatype Fault =
    | Unmatched        // no pattern applies: Q_UNIMPLEMENTED, a dump of the node, then Q_ASSERT(!"TODO") or Q_UNREACHABLE
    | AssertionFailed  // a Q_ASSERT on the shape of an operand fails
    | NullDereference  // the source follows a pointer that is null for this shape

  /** One call of a backend hook, with the operands the decoder hands it. */
  datatype Op =
    | SetActivationProperty(source: Expr, name: string)
    | LoadThisObject(target: Expr)
    | LoadQmlContext(target: Expr)
    | LoadQmlImportedScripts(target: Expr)
    | LoadQmlSingleton(name: string, target: Expr)
    | GetActivationProperty(nameExpr: Expr, target: Expr)
    | LoadConst(source: Expr, target: Expr)
    | SwapValues(source: Expr, target: Expr)
    | CopyValue(source: Expr, target: Expr)
    | LoadString(text: string, target: Expr)
    | LoadRegexp(source: Expr, target: Expr)
    | InitClosure(source: Expr, target: Expr)
    | ConstructActivationProperty(func: Expr, args: seq<Expr>, target: Expr)
    | ConstructProperty(base: Expr, name: string, args: seq<Expr>, target: Expr)
    | ConstructValue(func: Expr, args: seq<Expr>, target: Expr)
    | GetQmlContextProperty(base: Expr, kind: MemberKind, propertyIndex: int, target: Expr)
    | GetQObjectProperty(base: Expr, propertyIndex: int, captureRequired: bool, isSingletonProperty: bool,
                         attachedPropertiesId: int, target: Expr)
    | GetProperty(base: Expr, name: string, target: Expr)
    | GetElement(base: Expr, index: Expr, target: Expr)
    | UnaryOp(op: nat, source: Expr, target: Expr)
    | BinaryOp(op: nat, left: Expr, right: Expr, target: Expr)
    | CallQmlContextProperty(base: Expr, kind: MemberKind, propertyIndex: int, args: seq<Expr>, result: Option<Expr>)
    | CallProperty(base: Expr, name: string, args: seq<Expr>, result: Option<Expr>)
    | CallSubscript(base: Expr, index: Expr, args: seq<Expr>, result: Option<Expr>)
    | CallValue(func: Expr, args: seq<Expr>, result: Option<Expr>)
    | ConvertType(source: Expr, target: Expr)
    | SetQmlContextProperty(source: Expr, base: Expr, kind: MemberKind, propertyIndex: int)
    | SetQObjectProperty(source: Expr, base: Expr, propertyIndex: int)
    | SetProperty(source: Expr, base: Expr, name: string)
    | SetElement(source: Expr, base: Expr, index: Expr)
    | CallBuiltinInvalid(func: Expr, args: seq<Expr>, result: Option<Expr>)
    | CallBuiltinTypeofQmlContextProperty(base: Expr, kind: MemberKind, propertyIndex: int, result: Option<Expr>)
    | CallBuiltinTypeofMember(base: Expr, name: string, result: Option<Expr>)
    | CallBuiltinTypeofSubscript(base: Expr, index: Expr, result: Option<Expr>)
    | CallBuiltinTypeofName(name: string, result: Option<Expr>)
    | CallBuiltinTypeofValue(source: Expr, result: Option<Expr>)
    | CallBuiltinDeleteMember(base: Expr, name: string, result: Option<Expr>)
    | CallBuiltinDeleteSubscript(base: Expr, index: Expr, result: Option<Expr>)
    | CallBuiltinDeleteName(name: string, result: Option<Expr>)
    | CallBuiltinDeleteValue(result: Option<Expr>)
    | CallBuiltinThrow(source: Expr)
    | CallBuiltinReThrow
    | CallBuiltinUnwindException(result: Option<Expr>)
    | CallBuiltinPushCatchScope(name: string)
    | CallBuiltinForeachIteratorObject(source: Expr, result: Option<Expr>)
    | CallBuiltinForeachNextPropertyName(source: Expr, result: Option<Expr>)
    | CallBuiltinPushWithScope(source: Expr)
    | CallBuiltinPopScope
    | CallBuiltinDeclareVar(deletable: bool, name: string)
    | CallBuiltinDefineArray(result: Option<Expr>, args: seq<Expr>)
    | CallBuiltinDefineObjectLiteral(result: Option<Expr>, keyValuePairsCount: int, keyValuePairs: seq<Expr>,
                                     arrayEntries: seq<Expr>, needSparseArray: bool)
    | CallBuiltinSetupArgumentObject(result: Option<Expr>)
    | CallBuiltinConvertThisToObject

  /** What selecting one statement (or one builtin call) comes to. */
  datatype Outcome =
    | Emitted(ops: seq<Op>)   // these hooks were called, in this order
    | Unimplemented           // Q_UNIMPLEMENTED alone: a warning, no hook, selection goes on
    | Fatal(fault: Fault)     // selection of the whole function aborts
  {
    /** The hook calls an outcome leaves in the backend's log. */
    function Ops(): seq<Op>
    {
      if Emitted? then ops else []
    }
  }

  /** The change-notification dependency a QML property read records on the function. */
  datatype Dependency =
    | ContextObjectDependency(coreIndex: int, notifyIndex: int)
    | ScopeObjectDependency(coreIndex: int, notifyIndex: int)

  datatype Selection = Selection(outcome: Outcome, dependency: Option<Dependency>)

  function Emit(op: Op): Outcome
  {
    Emitted([op])
  }

  /** The scope and context object members, which have their own backend hooks. */
  predicate IsQmlContextKind(kind: MemberKind)
  {
    kind == MemberOfQmlScopeObject || kind == MemberOfQmlContextObject
  }

  // ---------------------------------------------------------------------------------------
  // Moves
  // ---------------------------------------------------------------------------------------

  /**
   * IRDecoder::visitMove. `hasFunction` says whether a function is being compiled (the
   * decoder's _function is non-null); only then can a dependency be recorded.
   */
  function SelectMove(target: Expr, source: Expr, swap: bool, hasFunction: bool): Selection
  {
    if target.Name? then
      Selection(if !source.IsValue() then Fatal(Unmatched)
                else if target.id.None? then Fatal(NullDereference)
                else Emit(SetActivationProperty(source, target.id.value)), None)
    else if target.IsSlot() then
      SelectLoad(target, source, swap, hasFunction)
    else if target.Member? then
      Selection(SelectMemberStore(target, source), None)
    else if target.Subscript? && source.IsValue() then
      Selection(Emit(SetElement(source, target.base, target.index)), None)
    else
      Selection(Fatal(Unmatched), None)
  }

  /** A move into a member: a typed QML property write when the property is resolved and not
      attached, else a generic named write. */
  function SelectMemberStore(target: Expr, source: Expr): Outcome
    requires target.Member?
  {
    if !target.base.IsValue() || !source.IsValue() then Fatal(Unmatched)
    else if target.kind == MemberOfEnum || target.kind == MemberOfIdObjectsArray then Fatal(AssertionFailed)
    else if target.property.Some? && target.attachedPropertiesId == 0 then
      if IsQmlContextKind(target.kind) then
        Emit(SetQmlContextProperty(source, target.base, target.kind, target.property.value.coreIndex))
      else
        Emit(SetQObjectProperty(source, target.base, target.property.value.coreIndex))
    else
      Emit(SetProperty(source, target.base, target.name))
  }

  /** A move into a stack or argument slot: the source's shape picks the hook. */
  function SelectLoad(target: Expr, source: Expr, swap: bool, hasFunction: bool): Selection
    requires target.IsSlot()
  {
    match source
    case Name(id, builtin, qmlSingleton) =>
      Selection(SelectNameLoad(target, source), None)
    case Const(_, _) =>
      Selection(Emit(LoadConst(source, target)), None)
    case Temp(_) =>
      Selection(Emit(if swap then SwapValues(source, target) else CopyValue(source, target)), None)
    case ArgLocal(_) =>
      Selection(Emit(if swap then SwapValues(source, target) else CopyValue(source, target)), None)
    case String(text) =>
      Selection(Emit(LoadString(text, target)), None)
    case RegExp(_, _) =>
      Selection(Emit(LoadRegexp(source, target)), None)
    case Closure(_) =>
      Selection(Emit(InitClosure(source, target)), None)
    case New(func, args) =>
      Selection(
        if func.Name? then Emit(ConstructActivationProperty(func, args, target))
        else if func.Member? then Emit(ConstructProperty(func.base, func.name, args, target))
        else if func.IsSlot() then Emit(ConstructValue(func, args, target))
        else Fatal(Unmatched), None)
    case Member(_, _, _, _, _, _) =>
      SelectMemberLoad(target, source, hasFunction)
    case Subscript(base, index) =>
      Selection(Emit(GetElement(base, index, target)), None)
    case Unop(op, e) =>
      Selection(Emit(UnaryOp(op, e, target)), None)
    case Binop(op, left, right) =>
      Selection(Emit(BinaryOp(op, left, right, target)), None)
    case Call(func, args) =>
      Selection(SelectCall(func, args, Some(target)), None)
    case Convert(e, _) =>
      Selection(if e.IsSlot() then Emit(ConvertType(e, target)) else Fatal(AssertionFailed), None)
  }

  /** A name loaded into a slot: `this`, the QML context, the imported scripts, a singleton,
      or else an activation property, in that priority. */
  function SelectNameLoad(target: Expr, source: Expr): Outcome
    requires source.Name?
  {
    if source.id == Some("this") then Emit(LoadThisObject(target))
    else if source.builtin == BuiltinQmlContext then Emit(LoadQmlContext(target))
    else if source.builtin == BuiltinQmlImportedScriptsObject then Emit(LoadQmlImportedScripts(target))
    else if source.qmlSingleton then
      (if source.id.None? then Fatal(NullDereference) else Emit(LoadQmlSingleton(source.id.value, target)))
    else Emit(GetActivationProperty(source, target))
  }

  /** The dependency a read of a resolved property records: only inside a function, for a
      non-attached, non-constant property of the context or the scope object. */
  function MemberDependency(m: Expr, hasFunction: bool): Option<Dependency>
    requires m.Member? && m.property.Some?
  {
    var p := m.property.value;
    if hasFunction && m.attachedPropertiesId == 0 && !p.isConstant then
      if m.kind == MemberOfQmlContextObject then Some(ContextObjectDependency(p.coreIndex, p.notifyIndex))
      else if m.kind == MemberOfQmlScopeObject then Some(ScopeObjectDependency(p.coreIndex, p.notifyIndex))
      else None
    else None
  }

  /** A member read into a slot. */
  function SelectMemberLoad(target: Expr, m: Expr, hasFunction: bool): Selection
    requires m.Member?
  {
    if m.property.Some? then
      if m.kind == MemberOfEnum || m.kind == MemberOfIdObjectsArray then
        Selection(Fatal(AssertionFailed), None)
      else
        var dependency := MemberDependency(m, hasFunction);
        var captureRequired := dependency.None?;
        if IsQmlContextKind(m.kind) then
          Selection(Emit(GetQmlContextProperty(m.base, m.kind, m.property.value.coreIndex, target)), dependency)
        else
          Selection(Emit(GetQObjectProperty(m.base, m.property.value.coreIndex, captureRequired,
                                            m.kind == MemberOfSingletonObject, m.attachedPropertiesId, target)),
                    dependency)
    else if m.kind == MemberOfIdObjectsArray then
      Selection(Emit(GetQmlContextProperty(m.base, m.kind, m.idIndex, target)), None)
    else if m.base.IsValue() then
      Selection(Emit(GetProperty(m.base, m.name, target)), None)
    else
      Selection(Fatal(Unmatched), None)
  }

  /** A call whose value is moved into a slot: builtin, QML or generic property, element, value. */
  function SelectCall(func: Expr, args: seq<Expr>, result: Option<Expr>): Outcome
  {
    if func.Name? then SelectBuiltin(func, args, result)
    else if func.Member? then
      if func.kind == MemberOfIdObjectsArray then Fatal(AssertionFailed)
      else if IsQmlContextKind(func.kind) then
        (if func.property.None? then Fatal(NullDereference)
         else Emit(CallQmlContextProperty(func.base, func.kind, func.property.value.coreIndex, args, result)))
      else Emit(CallProperty(func.base, func.name, args, result))
    else if func.Subscript? then Emit(CallSubscript(func.base, func.index, args, result))
    else if func.IsValue() then Emit(CallValue(func, args, result))
    else Fatal(Unmatched)
  }

  // ---------------------------------------------------------------------------------------
  // Expression statements
  // ---------------------------------------------------------------------------------------

  /** IRDecoder::visitExp: a call whose result is dropped. The value test comes before the
      member test here, unlike in visitMove. */
  function SelectExp(e: Expr): Outcome
  {
    if !e.Call? then Fatal(Unmatched)
    else
      var func, args := e.base, e.args;
      if func.Name? then SelectBuiltin(func, args, None)
      else if func.IsValue() then Emit(CallValue(func, args, None))
      else if func.Member? then
        if !func.base.IsSlot() || func.kind == MemberOfIdObjectsArray then Fatal(AssertionFailed)
        else if IsQmlContextKind(func.kind) then
          (if func.property.None? then Fatal(NullDereference)
           else Emit(CallQmlContextProperty(func.base, func.kind, func.property.value.coreIndex, args, None)))
        else Emit(CallProperty(func.base, func.name, args, None))
      else if func.Subscript? then Emit(CallSubscript(func.base, func.index, args, None))
      else Fatal(Unmatched)
  }

  // ---------------------------------------------------------------------------------------
  // Builtins
  // ---------------------------------------------------------------------------------------

  /** IRDecoder::callBuiltin: the intrinsic named by `func` applied to `args`; `result` is the
      move's target, or None for an expression statement. */
  function SelectBuiltin(func: Expr, args: seq<Expr>, result: Option<Expr>): Outcome
    requires func.Name?
  {
    match func.builtin
    case BuiltinInvalid => Emit(CallBuiltinInvalid(func, args, result))
    case BuiltinTypeof => if |args| == 0 then Fatal(NullDereference) else SelectTypeof(args[0], result)
    case BuiltinDelete => if |args| == 0 then Fatal(NullDereference) else SelectDelete(args[0], result)
    case BuiltinThrow =>
      if |args| == 0 then Fatal(NullDereference)
      else if !args[0].IsValue() then Fatal(AssertionFailed)
      else Emit(CallBuiltinThrow(args[0]))
    case BuiltinRethrow => Emit(CallBuiltinReThrow)
    case BuiltinUnwindException => Emit(CallBuiltinUnwindException(result))
    case BuiltinPushCatchScope =>
      if |args| == 0 then Fatal(NullDereference)
      else if !args[0].String? then Fatal(AssertionFailed)
      else Emit(CallBuiltinPushCatchScope(args[0].text))
    case BuiltinForeachIteratorObject =>
      if |args| == 0 then Fatal(NullDereference) else Emit(CallBuiltinForeachIteratorObject(args[0], result))
    case BuiltinForeachNextPropertyName =>
      if |args| == 0 then Fatal(NullDereference) else Emit(CallBuiltinForeachNextPropertyName(args[0], result))
    case BuiltinPushWithScope =>
      if |args| == 0 then Fatal(NullDereference)
      else if args[0].IsSlot() then Emit(CallBuiltinPushWithScope(args[0]))
      else Unimplemented
    case BuiltinPopScope => Emit(CallBuiltinPopScope)
    case BuiltinDeclareVars => DeclareVarsOutcome(args)
    case BuiltinDefineArray => Emit(CallBuiltinDefineArray(result, args))
    case BuiltinDefineObjectLiteral => ObjectLiteralOutcome(args, result)
    case BuiltinSetupArgumentObject => Emit(CallBuiltinSetupArgumentObject(result))
    case BuiltinConvertThisToObject => Emit(CallBuiltinConvertThisToObject)
    case BuiltinQmlContext => Fatal(Unmatched)
    case BuiltinQmlImportedScriptsObject => Fatal(Unmatched)
  }

  /** typeof: member (QML or generic), subscript, name, or a temp/const/arg value. */
  function SelectTypeof(e: Expr, result: Option<Expr>): Outcome
  {
    if e.Member? then
      if e.kind == MemberOfIdObjectsArray then Fatal(AssertionFailed)
      else if IsQmlContextKind(e.kind) then
        (if e.property.None? then Fatal(NullDereference)
         else Emit(CallBuiltinTypeofQmlContextProperty(e.base, e.kind, e.property.value.coreIndex, result)))
      else Emit(CallBuiltinTypeofMember(e.base, e.name, result))
    else if e.Subscript? then Emit(CallBuiltinTypeofSubscript(e.base, e.index, result))
    else if e.Name? then
      (if e.id.None? then Fatal(NullDereference) else Emit(CallBuiltinTypeofName(e.id.value, result)))
    else if e.IsValue() then Emit(CallBuiltinTypeofValue(e, result))
    else Fatal(Unmatched)
  }

  /** delete: member, subscript, name, or a temp/arg slot (a constant is not accepted). */
  function SelectDelete(e: Expr, result: Option<Expr>): Outcome
  {
    if e.Member? then Emit(CallBuiltinDeleteMember(e.base, e.name, result))
    else if e.Subscript? then Emit(CallBuiltinDeleteSubscript(e.base, e.index, result))
    else if e.Name? then
      (if e.id.None? then Fatal(NullDereference) else Emit(CallBuiltinDeleteName(e.id.value, result)))
    else if e.IsSlot() then Emit(CallBuiltinDeleteValue(result))
    else Fatal(Unmatched)
  }

  /** A name declare_vars can declare. */
  predicate Declarable(e: Expr)
  {
    e.Name? && e.id.Some?
  }

  /** The position of the first argument declare_vars cannot declare, or |names| if none. */
  function FirstUndeclarable(names: seq<Expr>): (k: nat)
    ensures k <= |names|
    ensures forall j :: 0 <= j < k ==> Declarable(names[j])
    ensures k < |names| ==> !Declarable(names[k])
  {
    if |names| == 0 then 0
    else if !Declarable(names[0]) then 0
    else 1 + FirstUndeclarable(names[1..])
  }

  /** The fault the first undeclarable argument causes: a non-name fails the assertion, a
      name without an identifier is a null dereference. */
  function UndeclarableFault(e: Expr): Fault
  {
    if e.Name? then NullDereference else AssertionFailed
  }

  /**
   * declare_vars: `[deletable, name, name, ...]`. No arguments emits nothing; otherwise the
   * first argument must be a boolean constant and each following one a name, declared in order
   * with deletable = (the constant's value != 0).
   */
  function DeclareVarsOutcome(args: seq<Expr>): (r: Outcome)
    ensures args == [] ==> r == Emitted([])
    ensures r.Emitted? && args != [] ==>
              args[0].Const? && args[0].ctype == BoolType && |r.ops| == |args| - 1 &&
              forall i :: 0 <= i < |r.ops| ==>
                Declarable(args[i + 1]) && r.ops[i] == CallBuiltinDeclareVar(args[0].value != 0, args[i + 1].id.value)
  {
    if |args| == 0 then Emitted([])
    else if !args[0].Const? then Fatal(NullDereference)
    else if args[0].ctype != BoolType then Fatal(AssertionFailed)
    else
      var names := args[1..];
      var k := FirstUndeclarable(names);
      if k < |names| then Fatal(UndeclarableFault(names[k]))
      else Emitted(seq(|names|, i requires 0 <= i < |names| => CallBuiltinDeclareVar(args[0].value != 0, names[i].id.value)))
  }

  /**
   * Skips `count` key/value entries of define_object_literal's list starting at position p:
   * each spans name, isData flag, value or getter, and a setter when the flag is 0. None when
   * the walk steps past the end of the list or reads a flag that is not a constant (both are
   * null dereferences in the source).
   */
  function SkipPairs(args: seq<Expr>, p: nat, count: int): (r: Option<nat>)
    ensures r.Some? ==> p <= r.value <= |args|
    decreases if count > 0 then count else 0
  {
    if count <= 0 then (if p <= |args| then Some(p) else None)
    else if p + 1 < |args| && args[p + 1].Const? then
      var last := if args[p + 1].value != 0 then p + 2 else p + 3;
      if last < |args| then SkipPairs(args, last + 1, count - 1) else None
    else None
  }

  /**
   * The sparse-array scan over the array entries starting at position q: true as soon as an
   * entry's index exceeds 16, false at the end of the list. Each entry spans index, isData flag,
   * value or getter, and a setter when the flag is 0.
   */
  function SparseScan(args: seq<Expr>, q: nat): Option<bool>
    decreases |args| - q
  {
    if q >= |args| then Some(false)
    else if !args[q].Const? then None
    else if args[q].value > 16 then Some(true)
    else if q + 1 < |args| && args[q + 1].Const? then
      var last := if args[q + 1].value != 0 then q + 2 else q + 3;
      if last < |args| then SparseScan(args, last + 1) else None
    else None
  }

  /** define_object_literal: `[count, key/value entries..., array entries...]`. */
  function ObjectLiteralOutcome(args: seq<Expr>, result: Option<Expr>): Outcome
  {
    if |args| == 0 || !args[0].Const? then Fatal(NullDereference)
    else match SkipPairs(args, 1, args[0].value)
      case None => Fatal(NullDereference)
      case Some(arrayStart) =>
        match SparseScan(args, arrayStart)
        case None => Fatal(NullDereference)
        case Some(sparse) =>
          Emit(CallBuiltinDefineObjectLiteral(result, args[0].value, args[1..], args[arrayStart..], sparse))
  }

  // ---------------------------------------------------------------------------------------
  // The encodings the IR lowering produces for the two list-walking builtins
  // ---------------------------------------------------------------------------------------

  /** A boolean constant as the lowering writes flags. */
  function Flag(b: bool): Expr
  {
    Const(BoolType, if b then 1 else 0)
  }

  /** One property of an object literal: a data property or a getter/setter pair. */
  datatype LiteralEntry =
    | DataEntry(key: Expr, value: Expr)
    | AccessorEntry(key: Expr, getter: Expr, setter: Expr)

  /** The cells of one entry: key, isData flag, value or getter, and the setter if not data. */
  function EncodeEntry(key: Expr, e: LiteralEntry): seq<Expr>
  {
    match e
    case DataEntry(_, v) => [key, Flag(true), v]
    case AccessorEntry(_, g, s) => [key, Flag(false), g, s]
  }

  function EncodePairs(pairs: seq<LiteralEntry>): seq<Expr>
  {
    if pairs == [] then [] else EncodeEntry(pairs[0].key, pairs[0]) + EncodePairs(pairs[1..])
  }

  /** An array-index entry of an object literal: the index and the property. */
  datatype ArrayEntry = ArrayEntry(index: nat, entry: LiteralEntry)

  function EncodeArrayEntries(entries: seq<ArrayEntry>): seq<Expr>
  {
    if entries == [] then []
    else EncodeEntry(Const(NumberType, entries[0].index), entries[0].entry) + EncodeArrayEntries(entries[1..])
  }

  /** The argument list of define_object_literal for these key/value and array entries. */
  function ObjectLiteralArgs(pairs: seq<LiteralEntry>, entries: seq<ArrayEntry>): seq<Expr>
  {
    [Const(NumberType, |pairs|)] + EncodePairs(pairs) + EncodeArrayEntries(entries)
  }

  /** Some array entry's index exceeds the dense-array threshold 16. */
  predicate NeedsSparseArray(entries: seq<ArrayEntry>)
  {
    exists i :: 0 <= i < |entries| && entries[i].index > 16
  }

  /** The walk over an argument list that holds encoded entries from position p on. */
  lemma {:induction false} SkipPairsOver(args: seq<Expr>, p: nat, pairs: seq<LiteralEntry>)
    requires p + |EncodePairs(pairs)| <= |args| && args[p..p + |EncodePairs(pairs)|] == EncodePairs(pairs)
    ensures SkipPairs(args, p, |pairs|) == Some(p + |EncodePairs(pairs)|)
    decreases |pairs|
  {
    if pairs != [] {
      var cells := EncodeEntry(pairs[0].key, pairs[0]);
      var later := EncodePairs(pairs[1..]);
      var q := p + |cells|;
      assert args[p..q + |later|] == cells + later;
      assert args[p + 1] == args[p..q + |later|][1] == cells[1];
      assert args[q..q + |later|] == args[p..q + |later|][|cells|..];
      assert (args[p + 1].value != 0 ==> q == p + 3) && (args[p + 1].value == 0 ==> q == p + 4);
      assert SkipPairs(args, p, |pairs|) == SkipPairs(args, q, |pairs| - 1);
      SkipPairsOver(args, q, pairs[1..]);
    }
  }

  /** Skipping the encoded key/value entries lands exactly after them. */
  lemma SkipPairsOverEncoding(prefix: seq<Expr>, pairs: seq<LiteralEntry>, rest: seq<Expr>)
    ensures SkipPairs(prefix + EncodePairs(pairs) + rest, |prefix|, |pairs|) == Some(|prefix| + |EncodePairs(pairs)|)
  {
    var args := prefix + EncodePairs(pairs) + rest;
    assert args[|prefix|..|prefix| + |EncodePairs(pairs)|] == EncodePairs(pairs);
    SkipPairsOver(args, |prefix|, pairs);
  }


  /** An index above 16 is needed in a list exactly when the first entry has one or the
      others do. */
  lemma NeedsSparseArrayCons(entries: seq<ArrayEntry>)
    requires entries != []
    ensures NeedsSparseArray(entries) == (entries[0].index > 16 || NeedsSparseArray(entries[1..]))
  {
    if NeedsSparseArray(entries) && entries[0].index <= 16 {
      var i :| 0 <= i < |entries| && entries[i].index > 16;
      assert entries[1..][i - 1].index > 16;
    }
    if NeedsSparseArray(entries[1..]) {
      var i :| 0 <= i < |entries[1..]| && entries[1..][i].index > 16;
      assert entries[i + 1].index > 16;
    }
  }

  /** One step of the sparse scan over an encoded array entry. */
  lemma SparseScanStep(prefix: seq<Expr>, e: ArrayEntry, later: seq<Expr>)
    ensures var cells := EncodeEntry(Const(NumberType, e.index), e.entry);
            SparseScan(prefix + (cells + later), |prefix|) ==
            if e.index > 16 then Some(true) else SparseScan((prefix + cells) + later, |prefix + cells|)
  {
    var cells := EncodeEntry(Const(NumberType, e.index), e.entry);
    var args := prefix + (cells + later);
    assert args == (prefix + cells) + later;
    assert args[|prefix|] == cells[0] && args[|prefix| + 1] == cells[1];
  }

  /** The sparse scan over encoded array entries reports exactly whether an index exceeds 16. */
  lemma {:induction false} SparseScanOverEncoding(prefix: seq<Expr>, entries: seq<ArrayEntry>)
    ensures SparseScan(prefix + EncodeArrayEntries(entries), |prefix|) == Some(NeedsSparseArray(entries))
    decreases |entries|
  {
    if entries == [] {
      assert !NeedsSparseArray(entries);
    } else {
      var cells := EncodeEntry(Const(NumberType, entries[0].index), entries[0].entry);
      SparseScanStep(prefix, entries[0], EncodeArrayEntries(entries[1..]));
      NeedsSparseArrayCons(entries);
      if entries[0].index <= 16 {
        SparseScanOverEncoding(prefix + cells, entries[1..]);
      }
    }
  }

  /** The argument list of an object literal in its three parts. */
  lemma ObjectLiteralArgsParts(pairs: seq<LiteralEntry>, entries: seq<ArrayEntry>)
    ensures var args := ObjectLiteralArgs(pairs, entries);
            var kv, arr := EncodePairs(pairs), EncodeArrayEntries(entries);
            args == [Const(NumberType, |pairs|)] + kv + arr &&
            args == ([Const(NumberType, |pairs|)] + kv) + arr &&
            args[0] == Const(NumberType, |pairs|) &&
            args[1..] == kv + arr && args[1 + |kv|..] == arr
  {
    ThreeParts(Const(NumberType, |pairs|), EncodePairs(pairs), EncodeArrayEntries(entries));
  }

  /** A list made of a head cell and two sections, cut after the head and after the first section. */
  lemma ThreeParts<T>(head: T, first: seq<T>, second: seq<T>)
    ensures var list := [head] + first + second;
            list == ([head] + first) + second && list[0] == head &&
            list[1..] == first + second && list[1 + |first|..] == second
  {
    var list := [head] + first + second;
    assert list[1..] == first + second;
    assert list[1 + |first|..] == second;
  }

  /**
   * Decoding an object literal the lowering encoded: the count is the number of key/value
   * entries, the key/value section starts right after the count, the array section is exactly
   * the encoded array entries, and a sparse array is needed exactly when an index exceeds 16.
   */
  lemma ObjectLiteralRoundTrip(pairs: seq<LiteralEntry>, entries: seq<ArrayEntry>, result: Option<Expr>)
    ensures ObjectLiteralOutcome(ObjectLiteralArgs(pairs, entries), result)
         == Emit(CallBuiltinDefineObjectLiteral(result, |pairs|, EncodePairs(pairs) + EncodeArrayEntries(entries),
                                               EncodeArrayEntries(entries), NeedsSparseArray(entries)))
  {
    var head := [Const(NumberType, |pairs|)];
    var kv, arr := EncodePairs(pairs), EncodeArrayEntries(entries);
    ObjectLiteralArgsParts(pairs, entries);
    SkipPairsOverEncoding(head, pairs, arr);
    SparseScanOverEncoding(head + kv, entries);
  }

  /** The argument list of declare_vars for these names. */
  function DeclareVarsArgs(deletable: bool, names: seq<string>): seq<Expr>
  {
    [Flag(deletable)] + seq(|names|, i requires 0 <= i < |names| => Name(Some(names[i]), BuiltinInvalid, false))
  }

  /** Decoding declare_vars the lowering encoded: one declaration per name, in list order, each
      carrying the flag. */
  lemma DeclareVarsRoundTrip(deletable: bool, names: seq<string>)
    ensures DeclareVarsOutcome(DeclareVarsArgs(deletable, names))
         == Emitted(seq(|names|, i requires 0 <= i < |names| => CallBuiltinDeclareVar(deletable, names[i])))
  {
    var args := DeclareVarsArgs(deletable, names);
    assert forall j :: 0 <= j < |names| ==> args[1..][j] == Name(Some(names[j]), BuiltinInvalid, false);
    assert FirstUndeclarable(args[1..]) == |names|;
  }

  // ---------------------------------------------------------------------------------------
  // Properties of the dispatch
  // ---------------------------------------------------------------------------------------

  /** A move from a name into a slot picks, in priority order, `this`, the QML context, the
      imported scripts, a singleton, and otherwise a generic activation-property load. */
  lemma NameLoadPriority(target: Expr, source: Expr, swap: bool, hasFunction: bool)
    requires target.IsSlot() && source.Name?
    ensures var s := SelectMove(target, source, swap, hasFunction);
      s.dependency.None? &&
      (source.id == Some("this") <==> s.outcome == Emit(LoadThisObject(target))) &&
      (s.outcome == Emit(LoadQmlContext(target)) <==>
         source.id != Some("this") && source.builtin == BuiltinQmlContext) &&
      (s.outcome == Emit(LoadQmlImportedScripts(target)) <==>
         source.id != Some("this") && source.builtin == BuiltinQmlImportedScriptsObject) &&
      ((exists n :: s.outcome == Emit(LoadQmlSingleton(n, target))) <==>
         source.id != Some("this") && source.builtin != BuiltinQmlContext &&
         source.builtin != BuiltinQmlImportedScriptsObject && source.qmlSingleton && source.id.Some?) &&
      (s.outcome == Emit(GetActivationProperty(source, target)) <==>
         source.id != Some("this") && source.builtin != BuiltinQmlContext &&
         source.builtin != BuiltinQmlImportedScriptsObject && !source.qmlSingleton)
  {
    var s := SelectMove(target, source, swap, hasFunction);
    if exists n :: s.outcome == Emit(LoadQmlSingleton(n, target)) {
      var n :| s.outcome == Emit(LoadQmlSingleton(n, target));
      assert s.outcome.ops[0] == LoadQmlSingleton(n, target);
    }
  }

  /** Slot to slot is a swap exactly when the move is marked as one, otherwise a copy. */
  lemma SlotMoveSwapsIffMarked(target: Expr, source: Expr, swap: bool, hasFunction: bool)
    requires target.IsSlot() && source.IsSlot()
    ensures SelectMove(target, source, swap, hasFunction).outcome ==
            Emit(if swap then SwapValues(source, target) else CopyValue(source, target))
    ensures swap <==> SelectMove(target, source, swap, hasFunction).outcome.ops[0].SwapValues?
  {
  }

  /**
   * A read of a resolved property records a dependency exactly inside a function, for a
   * non-attached, non-constant property of the context or scope object; the dependency maps the
   * property's core index to its notify index, in the map of the object's kind.
   */
  lemma MemberReadDependency(target: Expr, m: Expr, swap: bool, hasFunction: bool)
    requires target.IsSlot() && m.Member? && m.property.Some?
    requires m.kind != MemberOfEnum && m.kind != MemberOfIdObjectsArray
    ensures var s := SelectMove(target, m, swap, hasFunction);
      var p := m.property.value;
      (s.dependency.Some? <==>
        hasFunction && m.attachedPropertiesId == 0 && !p.isConstant && IsQmlContextKind(m.kind)) &&
      (s.dependency.Some? && m.kind == MemberOfQmlContextObject ==>
        s.dependency.value == ContextObjectDependency(p.coreIndex, p.notifyIndex)) &&
      (s.dependency.Some? && m.kind == MemberOfQmlScopeObject ==>
        s.dependency.value == ScopeObjectDependency(p.coreIndex, p.notifyIndex)) &&
      (IsQmlContextKind(m.kind) <==> s.outcome == Emit(GetQmlContextProperty(m.base, m.kind, p.coreIndex, target)))
  {
  }

  /** captureRequired can only be false when a dependency was recorded, and recording happens
      only for scope and context members, which take the other hook: every generic QObject
      property read is emitted with captureRequired set. */
  lemma QObjectReadsAlwaysCapture(target: Expr, source: Expr, swap: bool, hasFunction: bool)
    requires SelectMove(target, source, swap, hasFunction).outcome.Emitted?
    ensures forall op :: op in SelectMove(target, source, swap, hasFunction).outcome.ops && op.GetQObjectProperty?
              ==> op.captureRequired
  {
    if target.IsSlot() && source.Member? {
      MemberLoadCaptures(target, source, hasFunction);
    } else if target.IsSlot() && source.Call? {
      CallsReadNoQObject(source.base, source.args, Some(target));
    }
  }

  /** The one hook that reads a generic QObject property, as a member load emits it. */
  lemma MemberLoadCaptures(target: Expr, m: Expr, hasFunction: bool)
    requires m.Member? && SelectMemberLoad(target, m, hasFunction).outcome.Emitted?
    ensures forall op :: op in SelectMemberLoad(target, m, hasFunction).outcome.ops && op.GetQObjectProperty?
              ==> op.captureRequired
  {
  }

  /** No call reads a generic QObject property. */
  lemma CallsReadNoQObject(func: Expr, args: seq<Expr>, result: Option<Expr>)
    requires SelectCall(func, args, result).Emitted?
    ensures forall op :: op in SelectCall(func, args, result).ops ==> !op.GetQObjectProperty?
  {
  }

  /** typeof and delete accept a different set of plain values: typeof takes a constant,
      delete does not. */
  lemma TypeofDeleteValueOperands(e: Expr, result: Option<Expr>)
    requires e.IsValue()
    ensures SelectTypeof(e, result) == Emit(CallBuiltinTypeofValue(e, result))
    ensures SelectDelete(e, result) == (if e.Const? then Fatal(Unmatched) else Emit(CallBuiltinDeleteValue(result)))
  {
  }

  /** Every move that is not a builtin call ends in exactly one hook or in the fatal path;
      nothing is emitted partially. */
  lemma OneHookPerMove(target: Expr, source: Expr, swap: bool, hasFunction: bool)
    requires !(source.Call? && source.base.Name?)
    ensures var o := SelectMove(target, source, swap, hasFunction).outcome;
      o.Emitted? ==> |o.ops| == 1
    ensures SelectMove(target, source, swap, hasFunction).outcome != Unimplemented
  {
  }

  /** A write into a member of values records no dependency; past the enum and id-object
      asserts it is a typed property write exactly when the property is resolved and not
      attached, and otherwise the generic write by name. */
  lemma MemberStoreTyped(target: Expr, source: Expr, swap: bool, hasFunction: bool)
    requires target.Member? && target.base.IsValue() && source.IsValue()
    requires target.kind != MemberOfEnum && target.kind != MemberOfIdObjectsArray
    ensures SelectMove(target, source, swap, hasFunction).dependency.None?
    ensures var o := SelectMove(target, source, swap, hasFunction).outcome;
            o.Emitted? && |o.ops| == 1 &&
            ((o.ops[0].SetQmlContextProperty? || o.ops[0].SetQObjectProperty?) <==>
               target.property.Some? && target.attachedPropertiesId == 0) &&
            (o.ops[0].SetProperty? <==> !(target.property.Some? && target.attachedPropertiesId == 0))
  {
  }

  /** An expression statement calls like a move's call with no result, except that a member
      call's base must be a slot. */
  lemma ExpIsCallWithoutResult(func: Expr, args: seq<Expr>)
    requires func.Member? ==> func.base.IsSlot()
    ensures SelectExp(Call(func, args)) == SelectCall(func, args, None)
  {
  }

  /** A member call whose base is not a slot: a move's call emits the generic call, an
      expression statement fails its assert. */
  lemma ExpMemberCallNeedsSlot(func: Expr, args: seq<Expr>)
    requires func.Member? && !func.base.IsSlot() && func.kind != MemberOfIdObjectsArray && !IsQmlContextKind(func.kind)
    ensures SelectExp(Call(func, args)) == Fatal(AssertionFailed)
    ensures SelectCall(func, args, None) == Emit(CallProperty(func.base, func.name, args, None))
  {
  }

  /** Value-producing hooks of a move into a slot write that slot. */
  function Destination(op: Op): Option<Expr>
  {
    match op
    case LoadThisObject(t) => Some(t)
    case LoadQmlContext(t) => Some(t)
    case LoadQmlImportedScripts(t) => Some(t)
    case LoadQmlSingleton(_, t) => Some(t)
    case GetActivationProperty(_, t) => Some(t)
    case LoadConst(_, t) => Some(t)
    case SwapValues(_, t) => Some(t)
    case CopyValue(_, t) => Some(t)
    case LoadString(_, t) => Some(t)
    case LoadRegexp(_, t) => Some(t)
    case InitClosure(_, t) => Some(t)
    case ConstructActivationProperty(_, _, t) => Some(t)
    case ConstructProperty(_, _, _, t) => Some(t)
    case ConstructValue(_, _, t) => Some(t)
    case GetQmlContextProperty(_, _, _, t) => Some(t)
    case GetQObjectProperty(_, _, _, _, _, t) => Some(t)
    case GetProperty(_, _, t) => Some(t)
    case GetElement(_, _, t) => Some(t)
    case UnaryOp(_, _, t) => Some(t)
    case BinaryOp(_, _, _, t) => Some(t)
    case ConvertType(_, t) => Some(t)
    case CallQmlContextProperty(_, _, _, _, r) => r
    case CallProperty(_, _, _, r) => r
    case CallSubscript(_, _, _, r) => r
    case CallValue(_, _, r) => r
    case _ => None
  }

  /** A move into a slot from anything but a builtin call writes exactly its target. */
  lemma LoadsWriteTheTarget(target: Expr, source: Expr, swap: bool, hasFunction: bool)
    requires target.IsSlot() && !(source.Call? && source.base.Name?)
    requires SelectMove(target, source, swap, hasFunction).outcome.Emitted?
    ensures forall op :: op in SelectMove(target, source, swap, hasFunction).outcome.ops ==>
              Destination(op) == Some(target)
  {
  }

  /** A move whose target is neither a name, a slot, a member nor a subscript is fatal, and so
      is a store of a non-value into a name, member or subscript. */
  lemma UnmatchedMovesAreFatal(target: Expr, source: Expr, swap: bool, hasFunction: bool)
    requires !target.IsSlot()
    requires !(target.Name? || target.Member? || target.Subscript?) || !source.IsValue()
    ensures SelectMove(target, source, swap, hasFunction).outcome.Fatal?
  {
  }

  // ---------------------------------------------------------------------------------------
  // The decoder
  // ---------------------------------------------------------------------------------------

  /** Applies a recorded dependency to the dependency maps of a function: QHash::insert. */
  function InsertDependency(deps: DependencyMaps, d: Option<Dependency>): DependencyMaps
  {
    match d
    case None => deps
    case Some(ContextObjectDependency(c, n)) => deps.(context := deps.context[c := n])
    case Some(ScopeObjectDependency(c, n)) => deps.(scope := deps.scope[c := n])
  }

  /** The map a dependency belongs in. */
  function MapFor(deps: DependencyMaps, d: Dependency): map<int, int>
  {
    if d.ContextObjectDependency? then deps.context else deps.scope
  }

  /**
   * An insert records the read: afterwards the property's core index maps to its notify
   * index in the map of its kind, every other entry of both maps is as it was, and no entry
   * is lost.
   */
  lemma InsertDependencyRecords(deps: DependencyMaps, d: Dependency)
    ensures var r := InsertDependency(deps, Some(d));
            d.coreIndex in MapFor(r, d) && MapFor(r, d)[d.coreIndex] == d.notifyIndex &&
            deps.context.Keys <= r.context.Keys && deps.scope.Keys <= r.scope.Keys &&
            (forall k :: k in deps.context && (d.ScopeObjectDependency? || k != d.coreIndex) ==> r.context[k] == deps.context[k]) &&
            (forall k :: k in deps.scope && (d.ContextObjectDependency? || k != d.coreIndex) ==> r.scope[k] == deps.scope[k])
  {
  }

  /** Inserting the same dependency again changes nothing: a property read twice is recorded
      once. */
  lemma InsertDependencyIdempotent(deps: DependencyMaps, d: Option<Dependency>)
    ensures InsertDependency(InsertDependency(deps, d), d) == InsertDependency(deps, d)
  {
  }

  /**
   * declare_vars, walking the argument list as the source does: one declaration per name
   * after the flag, in order.
   */
  method DeclareVars(args: seq<Expr>) returns (r: Outcome)
    ensures r == DeclareVarsOutcome(args)
  {
    if |args| == 0 {
      return Emitted([]);
    }
    if !args[0].Const? {
      return Fatal(NullDereference);
    }
    if args[0].ctype != BoolType {
      return Fatal(AssertionFailed);
    }
    var deletable := args[0].value != 0;
    var ops: seq<Op> := [];
    var i := 1;
    while i < |args|
      invariant 1 <= i <= |args|
      invariant forall j :: 1 <= j < i ==> Declarable(args[j])
      invariant ops == seq(i - 1, k requires 0 <= k < i - 1 => CallBuiltinDeclareVar(deletable, args[k + 1].id.value))
    {
      var arg := args[i];
      if !arg.Name? {
        assert FirstUndeclarable(args[1..]) == i - 1;
        return Fatal(AssertionFailed);
      }
      if arg.id.None? {
        assert FirstUndeclarable(args[1..]) == i - 1;
        return Fatal(NullDereference);
      }
      ops := ops + [CallBuiltinDeclareVar(deletable, arg.id.value)];
      i := i + 1;
    }
    assert FirstUndeclarable(args[1..]) == |args| - 1;
    r := Emitted(ops);
  }

  /**
   * define_object_literal, walking the argument list as the source does: past the count,
   * over `count` key/value entries, then over the array entries until one has an index above
   * 16 or the list ends.
   */
  method DefineObjectLiteral(args: seq<Expr>, result: Option<Expr>) returns (r: Outcome)
    ensures r == ObjectLiteralOutcome(args, result)
  {
    if |args| == 0 || !args[0].Const? {
      return Fatal(NullDereference);
    }
    var keyValuePairsCount := args[0].value;
    var p := 1;
    var i := 0;
    while i < keyValuePairsCount
      invariant 0 <= i && 1 <= p <= |args|
      invariant keyValuePairsCount <= 0 || i <= keyValuePairsCount
      invariant SkipPairs(args, 1, keyValuePairsCount) == SkipPairs(args, p, keyValuePairsCount - i)
      decreases keyValuePairsCount - i
    {
      if !(p + 1 < |args| && args[p + 1].Const?) {
        assert SkipPairs(args, p, keyValuePairsCount - i) == None;
        return Fatal(NullDereference);
      }
      var last := if args[p + 1].value != 0 then p + 2 else p + 3;
      if last >= |args| {
        assert SkipPairs(args, p, keyValuePairsCount - i) == None;
        return Fatal(NullDereference);
      }
      assert SkipPairs(args, p, keyValuePairsCount - i) == SkipPairs(args, last + 1, keyValuePairsCount - (i + 1));
      p := last + 1;
      i := i + 1;
    }
    assert SkipPairs(args, 1, keyValuePairsCount) == Some(p);
    var arrayStart := p;
    var needSparseArray := false;
    var q := arrayStart;
    while q < |args|
      invariant arrayStart <= q <= |args|
      invariant SparseScan(args, arrayStart) == SparseScan(args, q)
      decreases |args| - q
    {
      if !args[q].Const? {
        assert SparseScan(args, q) == None;
        return Fatal(NullDereference);
      }
      if args[q].value > 16 {
        needSparseArray := true;
        break;
      }
      if !(q + 1 < |args| && args[q + 1].Const?) {
        assert SparseScan(args, q) == None;
        return Fatal(NullDereference);
      }
      var last := if args[q + 1].value != 0 then q + 2 else q + 3;
      if last >= |args| {
        assert SparseScan(args, q) == None;
        return Fatal(NullDereference);
      }
      assert SparseScan(args, q) == SparseScan(args, last + 1);
      q := last + 1;
    }
    assert SparseScan(args, arrayStart) == Some(needSparseArray);
    r := Emit(CallBuiltinDefineObjectLiteral(result, keyValuePairsCount, args[1..], args[arrayStart..], needSparseArray));
  }

  /**
   * The instruction selector's decoding half. `function` is the IR function being compiled
   * (null outside one); `emitted` is the sequence of backend hook calls made so far.
   */
  class IRDecoder {
    var current: Function?
    var emitted: seq<Op>

    constructor (current: Function?)
      ensures this.current == current && emitted == []
    {
      this.current := current;
      emitted := [];
    }

    /** IRDecoder::callBuiltin. */
    method CallBuiltin(func: Expr, args: seq<Expr>, result: Option<Expr>) returns (r: Outcome)
      requires func.Name?
      modifies this`emitted
      ensures r == SelectBuiltin(func, args, result)
      ensures emitted == old(emitted) + r.Ops()
    {
      if func.builtin == BuiltinDeclareVars {
        r := DeclareVars(args);
      } else if func.builtin == BuiltinDefineObjectLiteral {
        r := DefineObjectLiteral(args, result);
      } else {
        r := SelectBuiltin(func, args, result);
      }
      emitted := emitted + r.Ops();
    }

    /** IRDecoder::visitMove: selects the hook for a move, and records the property dependency
        a QML property read implies on the function being compiled. */
    method VisitMove(target: Expr, source: Expr, swap: bool) returns (r: Outcome)
      modifies this`emitted, current
      ensures var s := SelectMove(target, source, swap, current != null);
        r == s.outcome && emitted == old(emitted) + r.Ops() &&
        (current != null ==> current.Dependencies() == InsertDependency(old(current.Dependencies()), s.dependency))
    {
      var s := SelectMove(target, source, swap, current != null);
      if target.IsSlot() && source.Call? && source.base.Name? {
        r := CallBuiltin(source.base, source.args, Some(target));
        return;
      }
      if s.dependency.Some? {
        var d := s.dependency.value;
        if d.ContextObjectDependency? {
          current.contextObjectPropertyDependencies := current.contextObjectPropertyDependencies[d.coreIndex := d.notifyIndex];
        } else {
          current.scopeObjectPropertyDependencies := current.scopeObjectPropertyDependencies[d.coreIndex := d.notifyIndex];
        }
      }
      r := s.outcome;
      emitted := emitted + r.Ops();
    }

    /** IRDecoder::visitExp. */
    method VisitExp(e: Expr) returns (r: Outcome)
      modifies this`emitted
      ensures r == SelectExp(e) && emitted == old(emitted) + r.Ops()
    {
      if e.Call? && e.base.Name? {
        r := CallBuiltin(e.base, e.args, None);
      } else {
        r := SelectExp(e);
        emitted := emitted + r.Ops();
      }
    }

    /** Visits one statement. */
    method Visit(s: Stmt) returns (r: Outcome)
      modifies this`emitted, current
      ensures r == (if s.Move? then SelectMove(s.target, s.source, s.swap, current != null).outcome else SelectExp(s.expr))
      ensures emitted == old(emitted) + r.Ops()
      ensures current != null ==>
                current.Dependencies() ==
                InsertDependency(old(current.Dependencies()),
                                 if s.Move? then SelectMove(s.target, s.source, s.swap, true).dependency else None)
    {
      if s.Move? {
        r := VisitMove(s.target, s.source, s.swap);
      } else {
        r := VisitExp(s.expr);
      }
    }
  }
}
