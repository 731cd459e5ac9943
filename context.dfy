/**
 * The scope chain of the V4 engine: an execution context and the contexts outside it
 * (`outer`), walked innermost first to resolve, assign, delete and declare names.
 *
 * A context is one of With, Catch, Call (or its QML variant) and Global. The chain is a
 * sequence of frames, innermost first; script objects (with-objects, activations, the global
 * object) are finite maps from names to properties, held by identity in `Objects` so that a
 * write through one frame is seen through every frame that names the same object.
 */
module ExecutionContexts {
  import opened Options

  type Name = string
  type ObjectId = nat

  /** The name that resolves to the receiver before any scope is consulted. */
  const This: Name := "this"

  /** Script values as far as resolution cares: an object is a reference by identity. */
  datatype Value = Undefined | Number(n: int) | Text(s: string) | ObjectRef(id: ObjectId)

  /** A data property and its configurable attribute (whether delete may remove it). */
  datatype Property = Property(value: Value, configurable: bool)

  type JSObject = map<Name, Property>
  type Objects = map<ObjectId, JSObject>

  /**
   * The compiled function behind a function object. Its internal class lists the formal
   * parameters (last formal first) and then the declared variables, so the name at index i
   * lives in argument slot nFormals - i - 1 when i < nFormals and in local i - nFormals after.
   */
  datatype CompiledFunction = CompiledFunction(names: seq<Name>, nFormals: nat, nLocals: nat,
                                               isNamedExpression: bool, name: Name)

  /** A function object: its identity, its activation flag, its strictness and, unless it is
      not backed by compiled code, its compiled function. */
  datatype FunctionObject = FunctionObject(id: ObjectId, needsActivation: bool, strictMode: bool,
                                           code: Option<CompiledFunction>)

  /** The receiver and the arguments of a call; argc is the number of arguments. */
  datatype CallData = CallData(thisObject: Value, args: seq<Value>)

  /**
   * One execution context. With and Catch contexts share the call data of the context they
   * were pushed on, so they carry none of their own; `qml` marks a QML context, the variant of
   * a call context whose activation is the QML scope object.
   */
  datatype Frame =
    | WithContext(withObject: ObjectId)
    | CatchContext(catchStrict: bool, exceptionVarName: Name, exceptionValue: Value)
    | CallContext(qml: bool, callStrict: bool, callee: FunctionObject, callData: CallData,
                  realArgumentCount: nat, locals: seq<Value>, activation: Option<ObjectId>)
    | GlobalContext(global: ObjectId, globalThis: Value)

  datatype ScriptError = ReferenceError(name: Name) | SyntaxError(name: Name)

  /** How an operation on the chain ends: normally with a result, with a thrown script error,
      or by dereferencing a function object that has no compiled function. */
  datatype Completion<T> = Normal(result: T) | Threw(error: ScriptError) | NullFunction

  /** A resolved name: its value and the object to use as `this` for a call through it. */
  datatype Binding = Binding(value: Value, base: Option<ObjectId>)

  // ---------------------------------------------------------------------------------------
  // Frames
  // ---------------------------------------------------------------------------------------

  /** A context's strict-mode flag. A with context never sets it; a catch context copies it
      from the context it was pushed on. */
  function StrictMode(f: Frame): bool
  {
    match f
    case WithContext(_) => false
    case CatchContext(s, _, _) => s
    case CallContext(_, s, _, _, _, _, _) => s
    case GlobalContext(_, _) => false
  }

  /** FunctionObject::formalParameterCount: the compiled function's formals, or none. */
  function FormalParameterCount(fn: FunctionObject): nat
  {
    if fn.code.Some? then fn.code.value.nFormals else 0
  }

  /** FunctionObject::varCount: the compiled function's locals, or none. */
  function VarCount(fn: FunctionObject): nat
  {
    if fn.code.Some? then fn.code.value.nLocals else 0
  }

  /** CallContext::formalCount. */
  function FormalCount(f: Frame): (n: nat)
    requires f.CallContext?
    ensures f.callee.code.None? ==> n == 0
  {
    FormalParameterCount(f.callee)
  }

  /** CallContext::variableCount. */
  function VariableCount(f: Frame): (n: nat)
    requires f.CallContext?
    ensures f.callee.code.None? ==> n == 0
  {
    VarCount(f.callee)
  }

  /** CallContext::needsOwnArguments: an arguments object of its own is needed when the
      function needs an activation or the call passed fewer arguments than there are formals. */
  predicate NeedsOwnArguments(f: Frame)
    requires f.CallContext?
  {
    f.callee.needsActivation || |f.callData.args| < FormalCount(f)
  }

  /** The layout a call context keeps: one name per formal and local, at least as many
      argument slots as formals, one local slot per declared variable. */
  predicate FrameOk(f: Frame)
  {
    f.CallContext? && f.callee.code.Some? ==>
      var c := f.callee.code.value;
      |c.names| == c.nFormals + c.nLocals && c.nFormals <= |f.callData.args| && |f.locals| == c.nLocals
  }

  predicate ChainOk(chain: seq<Frame>)
  {
    forall k :: 0 <= k < |chain| ==> FrameOk(chain[k])
  }

  /** The objects a frame names itself: its with-object, its activation, the global object. */
  predicate ObjectsPresent(f: Frame, objects: Objects)
  {
    match f
    case WithContext(w) => w in objects
    case CatchContext(_, _, _) => true
    case CallContext(_, _, _, _, _, _, act) => act.Some? ==> act.value in objects
    case GlobalContext(g, _) => g in objects
  }

  // ---------------------------------------------------------------------------------------
  // Declared slots
  // ---------------------------------------------------------------------------------------

  /** InternalClass::find: the index of a name, None where the source has UINT_MAX. */
  function Find(names: seq<Name>, name: Name): (r: Option<nat>)
    ensures r.Some? ==> r.value < |names| && names[r.value] == name
    ensures r.Some? ==> forall j :: 0 <= j < r.value ==> names[j] != name
    ensures r.None? <==> name !in names
    decreases |names|
  {
    if |names| == 0 then None
    else if names[0] == name then Some(0)
    else match Find(names[1..], name)
      case None => None
      case Some(k) => Some(k + 1)
  }

  /** Where a declared name's value lives. */
  datatype Slot = Argument(k: nat) | Local(k: nat)

  function SlotOf(nFormals: nat, index: nat): Slot
  {
    if index < nFormals then Argument(nFormals - index - 1) else Local(index - nFormals)
  }

  /**
   * Every index of the internal class has a slot of its own inside the frame: formals map to
   * argument slots (the last formal to slot 0) and variables to local slots, and no two
   * indices share a slot, so writing one declared name never changes another.
   */
  lemma SlotLayout(f: Frame, i: nat, j: nat)
    requires f.CallContext? && f.callee.code.Some? && FrameOk(f)
    requires i < |f.callee.code.value.names| && j < |f.callee.code.value.names|
    ensures var n := f.callee.code.value.nFormals;
            match SlotOf(n, i)
            case Argument(k) => i < n && k < |f.callData.args|
            case Local(k) => i >= n && k < |f.locals|
    ensures SlotOf(f.callee.code.value.nFormals, i) == SlotOf(f.callee.code.value.nFormals, j) ==> i == j
  {
  }

  function ReadSlot(f: Frame, index: nat): Value
    requires f.CallContext? && f.callee.code.Some? && FrameOk(f)
    requires index < |f.callee.code.value.names|
  {
    match SlotOf(f.callee.code.value.nFormals, index)
    case Argument(k) => f.callData.args[k]
    case Local(k) => f.locals[k]
  }

  function WriteSlot(f: Frame, index: nat, v: Value): (g: Frame)
    requires f.CallContext? && f.callee.code.Some? && FrameOk(f)
    requires index < |f.callee.code.value.names|
    ensures g.CallContext? && g.callee == f.callee && FrameOk(g)
    ensures ReadSlot(g, index) == v
    ensures forall j :: 0 <= j < |f.callee.code.value.names| && j != index ==> ReadSlot(g, j) == ReadSlot(f, j)
  {
    match SlotOf(f.callee.code.value.nFormals, index)
    case Argument(k) => f.(callData := f.callData.(args := f.callData.args[k := v]))
    case Local(k) => f.(locals := f.locals[k := v])
  }

  // ---------------------------------------------------------------------------------------
  // Objects
  // ---------------------------------------------------------------------------------------

  predicate HasOwn(objects: Objects, id: ObjectId, name: Name)
  {
    id in objects && name in objects[id]
  }

  /** Object::put on a data property: an existing property keeps its attributes, a new one is
      configurable. */
  function PutOn(objects: Objects, id: ObjectId, name: Name, v: Value): (o: Objects)
    ensures o.Keys == objects.Keys
    ensures id in objects ==> HasOwn(o, id, name) && o[id][name].value == v
  {
    if id !in objects then objects
    else
      var obj := objects[id];
      objects[id := obj[name := if name in obj then obj[name].(value := v) else Property(v, true)]]
  }

  /** Object::deleteProperty on a property the object has: a configurable one is removed. */
  function DeleteOn(objects: Objects, id: ObjectId, name: Name): (r: (Completion<bool>, Objects))
    requires HasOwn(objects, id, name)
    ensures r.1.Keys == objects.Keys
    ensures r.0 == Normal(objects[id][name].configurable)
    ensures r.0 == Normal(true) ==> !HasOwn(r.1, id, name)
    ensures r.0 == Normal(false) ==> r.1 == objects
  {
    if objects[id][name].configurable then (Normal(true), objects[id := objects[id] - {name}])
    else (Normal(false), objects)
  }

  // ---------------------------------------------------------------------------------------
  // getProperty and getPropertyAndBase
  // ---------------------------------------------------------------------------------------

  /** callData->thisObject: With and Catch contexts use the call data of the context they were
      pushed on. */
  function ThisValue(chain: seq<Frame>): Value
  {
    if chain == [] then Undefined
    else match chain[0]
      case CallContext(_, _, _, cd, _, _, _) => cd.thisObject
      case GlobalContext(_, t) => t
      case _ => ThisValue(chain[1..])
  }

  /**
   * One context's answer to a read: its with-object; its catch variable; its declared slots,
   * consulted only when the function needs an activation or a with or catch context lies
   * inside; its activation; the named function expression itself; the global object.
   */
  function FrameLookup(f: Frame, objects: Objects, name: Name, hasWith: bool, hasCatch: bool): Option<Binding>
    requires FrameOk(f)
  {
    match f
    case WithContext(w) =>
      if HasOwn(objects, w, name) then Some(Binding(objects[w][name].value, Some(w))) else None
    case CatchContext(_, varName, v) =>
      if varName == name then Some(Binding(v, None)) else None
    case CallContext(qml, _, fn, _, _, _, act) =>
      var slot := if fn.code.Some? && (fn.needsActivation || hasWith || hasCatch)
                  then Find(fn.code.value.names, name) else None;
      if slot.Some? then Some(Binding(ReadSlot(f, slot.value), None))
      else if act.Some? && HasOwn(objects, act.value, name) then
        Some(Binding(objects[act.value][name].value, if qml then act else None))
      else if fn.code.Some? && fn.code.value.isNamedExpression && name == fn.code.value.name then
        Some(Binding(ObjectRef(fn.id), None))
      else None
    case GlobalContext(g, _) =>
      if HasOwn(objects, g, name) then Some(Binding(objects[g][name].value, None)) else None
  }

  /** The walk outward from frame i, with the flags gathered inside it. */
  function ResolveFrom(chain: seq<Frame>, objects: Objects, name: Name, i: nat, hasWith: bool, hasCatch: bool)
    : Completion<Binding>
    requires i <= |chain| && ChainOk(chain)
    decreases |chain| - i
  {
    if i == |chain| then Threw(ReferenceError(name))
    else match FrameLookup(chain[i], objects, name, hasWith, hasCatch)
      case Some(b) => Normal(b)
      case None => ResolveFrom(chain, objects, name, i + 1, hasWith || chain[i].WithContext?,
                               hasCatch || chain[i].CatchContext?)
  }

  /** Reading a name: `this` before any scope, otherwise the walk from the innermost context. */
  function Resolve(chain: seq<Frame>, objects: Objects, name: Name): Completion<Binding>
    requires ChainOk(chain)
  {
    if name == This then Normal(Binding(ThisValue(chain), None))
    else ResolveFrom(chain, objects, name, 0, false, false)
  }

  function ValueOf(r: Completion<Binding>): Completion<Value>
  {
    match r
    case Normal(b) => Normal(b.value)
    case Threw(e) => Threw(e)
    case NullFunction => NullFunction
  }

  function BaseOf(r: Completion<Binding>): Option<ObjectId>
  {
    if r.Normal? then r.result.base else None
  }

  predicate WithBefore(chain: seq<Frame>, k: nat)
    requires k <= |chain|
  {
    exists j :: 0 <= j < k && chain[j].WithContext?
  }

  predicate CatchBefore(chain: seq<Frame>, k: nat)
    requires k <= |chain|
  {
    exists j :: 0 <= j < k && chain[j].CatchContext?
  }

  /** The answer of frame k when the walk reaches it. */
  function AnswerAt(chain: seq<Frame>, objects: Objects, name: Name, k: nat): Option<Binding>
    requires k < |chain| && ChainOk(chain)
  {
    FrameLookup(chain[k], objects, name, WithBefore(chain, k), CatchBefore(chain, k))
  }

  /**
   * The walk from frame i answers with the first frame at or after i that has the name,
   * each frame seeing whether a with or catch context lies inside it; with no such frame
   * the read throws ReferenceError.
   */
  lemma {:induction false} ResolveFromFirstMatch(chain: seq<Frame>, objects: Objects, name: Name, i: nat)
    requires i <= |chain| && ChainOk(chain)
    ensures var r := ResolveFrom(chain, objects, name, i, WithBefore(chain, i), CatchBefore(chain, i));
            (r.Normal? <==> exists k :: i <= k < |chain| && AnswerAt(chain, objects, name, k).Some?) &&
            (r.Normal? ==> exists k :: i <= k < |chain| && AnswerAt(chain, objects, name, k) == Some(r.result) &&
                                         forall j :: i <= j < k ==> AnswerAt(chain, objects, name, j).None?) &&
            (!r.Normal? ==> r == Threw(ReferenceError(name)))
    decreases |chain| - i
  {
    if i < |chain| {
      assert WithBefore(chain, i + 1) == (WithBefore(chain, i) || chain[i].WithContext?) by {
        if chain[i].WithContext? { assert 0 <= i < i + 1; }
      }
      assert CatchBefore(chain, i + 1) == (CatchBefore(chain, i) || chain[i].CatchContext?) by {
        if chain[i].CatchContext? { assert 0 <= i < i + 1; }
      }
      ResolveFromFirstMatch(chain, objects, name, i + 1);
      var here := AnswerAt(chain, objects, name, i);
      if here.Some? {
        assert ResolveFrom(chain, objects, name, i, WithBefore(chain, i), CatchBefore(chain, i)) == Normal(here.value);
      } else {
        var r := ResolveFrom(chain, objects, name, i + 1, WithBefore(chain, i + 1), CatchBefore(chain, i + 1));
        if r.Normal? {
          var k :| i + 1 <= k < |chain| && AnswerAt(chain, objects, name, k) == Some(r.result) &&
                   forall j :: i + 1 <= j < k ==> AnswerAt(chain, objects, name, j).None?;
          assert forall j :: i <= j < k ==> AnswerAt(chain, objects, name, j).None?;
        } else {
          forall k | i <= k < |chain| ensures AnswerAt(chain, objects, name, k).None? {
            if k > i {
              assert !(exists k :: i + 1 <= k < |chain| && AnswerAt(chain, objects, name, k).Some?);
            }
          }
        }
      }
    }
  }

  /**
   * getProperty's priority: a name other than `this` is answered by the innermost context
   * that has it, and only when none has it does the read throw ReferenceError.
   */
  lemma FirstMatchWins(chain: seq<Frame>, objects: Objects, name: Name)
    requires ChainOk(chain) && name != This
    ensures var r := Resolve(chain, objects, name);
            (r.Normal? <==> exists k :: 0 <= k < |chain| && AnswerAt(chain, objects, name, k).Some?) &&
            (r.Normal? ==> exists k :: 0 <= k < |chain| && AnswerAt(chain, objects, name, k) == Some(r.result) &&
                                         forall j :: 0 <= j < k ==> AnswerAt(chain, objects, name, j).None?) &&
            (!r.Normal? ==> r == Threw(ReferenceError(name)))
  {
    assert !WithBefore(chain, 0) && !CatchBefore(chain, 0);
    ResolveFromFirstMatch(chain, objects, name, 0);
  }

  /** `this` is never shadowed: no with-object, activation or global property named "this"
      takes its place. */
  lemma ThisComesFirst(chain: seq<Frame>, objects: Objects)
    requires ChainOk(chain)
    ensures Resolve(chain, objects, This) == Normal(Binding(ThisValue(chain), None))
  {
  }

  /** A function that needs no activation, with no with or catch context inside it, answers
      from its activation and name alone: its arguments and locals are never consulted. */
  lemma SlotsHiddenWithoutActivation(f: Frame, args: seq<Value>, locals: seq<Value>, objects: Objects, name: Name)
    requires f.CallContext? && !f.callee.needsActivation && FrameOk(f)
    requires FrameOk(f.(callData := f.callData.(args := args), locals := locals))
    ensures FrameLookup(f, objects, name, false, false) ==
            FrameLookup(f.(callData := f.callData.(args := args), locals := locals), objects, name, false, false)
  {
  }

  /** Only a with-object, or the activation of a QML context, becomes the base of a call. */
  lemma {:induction false} BaseIsWithOrQmlActivation(chain: seq<Frame>, objects: Objects, name: Name, i: nat,
                                                     hasWith: bool, hasCatch: bool)
    requires i <= |chain| && ChainOk(chain)
    ensures var b := BaseOf(ResolveFrom(chain, objects, name, i, hasWith, hasCatch));
            b.Some? ==> exists k :: i <= k < |chain| &&
                          (chain[k] == WithContext(b.value) ||
                           (chain[k].CallContext? && chain[k].qml && chain[k].activation == b))
    decreases |chain| - i
  {
    if i < |chain| && FrameLookup(chain[i], objects, name, hasWith, hasCatch).None? {
      BaseIsWithOrQmlActivation(chain, objects, name, i + 1, hasWith || chain[i].WithContext?,
                                hasCatch || chain[i].CatchContext?);
    }
  }

  // ---------------------------------------------------------------------------------------
  // setProperty
  // ---------------------------------------------------------------------------------------

  /** What an assignment does to the chain and the objects. */
  datatype Effect<T> = Effect(result: Completion<T>, chain: seq<Frame>, objects: Objects)

  /**
   * One context's answer to a write, None when the write goes on outward: a with-object that
   * has the name; a catch variable; a declared slot (whatever the activation flag); a QML
   * activation, which takes any name; another activation or the global object, only for a
   * name it already has.
   */
  function FrameAssign(f: Frame, objects: Objects, name: Name, v: Value): Option<(Frame, Objects)>
    requires FrameOk(f)
  {
    match f
    case WithContext(w) =>
      if HasOwn(objects, w, name) then Some((f, PutOn(objects, w, name, v))) else None
    case CatchContext(_, varName, _) =>
      if varName == name then Some((f.(exceptionValue := v), objects)) else None
    case CallContext(qml, _, fn, _, _, _, act) =>
      var slot := if fn.code.Some? then Find(fn.code.value.names, name) else None;
      if slot.Some? then Some((WriteSlot(f, slot.value, v), objects))
      else if act.Some? && (qml || HasOwn(objects, act.value, name)) then Some((f, PutOn(objects, act.value, name, v)))
      else None
    case GlobalContext(g, _) =>
      if HasOwn(objects, g, name) then Some((f, PutOn(objects, g, name, v))) else None
  }

  /** The write walked outward from frame i. A name no context takes is a ReferenceError in
      strict mode, and for `this`; otherwise it becomes a property of the global object. */
  function AssignFrom(chain: seq<Frame>, objects: Objects, global: ObjectId, strict: bool, name: Name, v: Value, i: nat)
    : Effect<()>
    requires i <= |chain| && ChainOk(chain)
    decreases |chain| - i
  {
    if i == |chain| then
      if strict || name == This then Effect(Threw(ReferenceError(name)), chain, objects)
      else Effect(Normal(()), chain, PutOn(objects, global, name, v))
    else match FrameAssign(chain[i], objects, name, v)
      case Some((f, o)) => Effect(Normal(()), chain[i := f], o)
      case None => AssignFrom(chain, objects, global, strict, name, v, i + 1)
  }

  /** A frame after an assignment: the same context, with at most a slot or a catch value
      changed. */
  predicate SameContext(f: Frame, g: Frame)
  {
    f == g ||
    (f.CallContext? && g.CallContext? && f.callee == g.callee && f.activation == g.activation && f.qml == g.qml &&
     f.callStrict == g.callStrict) ||
    (f.CatchContext? && g.CatchContext? && f.exceptionVarName == g.exceptionVarName && f.catchStrict == g.catchStrict)
  }

  /** The frame that takes an assignment keeps its context and its layout, and no object is
      added or dropped. */
  lemma FrameAssignShape(f: Frame, objects: Objects, name: Name, v: Value)
    requires FrameOk(f) && FrameAssign(f, objects, name, v).Some?
    ensures var (g, o) := FrameAssign(f, objects, name, v).value;
            SameContext(f, g) && FrameOk(g) && o.Keys == objects.Keys &&
            (ObjectsPresent(f, objects) ==> ObjectsPresent(g, o))
  {
  }

  /** An assignment changes at most one frame, keeps every frame's context and layout and the
      set of objects, and adds no object. */
  lemma {:induction false} AssignKeepsShape(chain: seq<Frame>, objects: Objects, global: ObjectId, strict: bool,
                                            name: Name, v: Value, i: nat)
    requires i <= |chain| && ChainOk(chain)
    ensures var e := AssignFrom(chain, objects, global, strict, name, v, i);
            |e.chain| == |chain| && ChainOk(e.chain) && e.objects.Keys == objects.Keys &&
            (forall k :: 0 <= k < |chain| ==> SameContext(chain[k], e.chain[k]))
    decreases |chain| - i
  {
    if i < |chain| {
      match FrameAssign(chain[i], objects, name, v)
      case Some((f, o)) =>
        FrameAssignShape(chain[i], objects, name, v);
        assert forall k :: 0 <= k < |chain| && k != i ==> chain[i := f][k] == chain[k];
      case None => AssignKeepsShape(chain, objects, global, strict, name, v, i + 1);
    }
  }

  /**
   * Reads and writes agree on the declared slots: after assigning a declared name of an
   * innermost function that needs an activation, reading the name gives the value written.
   */
  lemma AssignThenReadSlot(chain: seq<Frame>, objects: Objects, global: ObjectId, strict: bool, name: Name, v: Value)
    requires ChainOk(chain) && |chain| > 0 && name != This
    requires chain[0].CallContext? && chain[0].callee.needsActivation && chain[0].callee.code.Some?
    requires name in chain[0].callee.code.value.names
    ensures var e := AssignFrom(chain, objects, global, strict, name, v, 0);
            e.result == Normal(()) && e.chain == chain[0 := e.chain[0]] && e.objects == objects &&
            ChainOk(e.chain) && Resolve(e.chain, e.objects, name) == Normal(Binding(v, None))
  {
    var index := Find(chain[0].callee.code.value.names, name).value;
    var f := WriteSlot(chain[0], index, v);
    var after := chain[0 := f];
    assert ChainOk(after) by {
      forall k | 0 <= k < |after| ensures FrameOk(after[k]) {
        if k > 0 { assert after[k] == chain[k]; }
      }
    }
    assert FrameLookup(after[0], objects, name, false, false) == Some(Binding(v, None));
  }

  /** Reads and writes agree on a catch variable: the innermost catch context's variable reads
      back the value written to it. */
  lemma AssignThenReadCatch(chain: seq<Frame>, objects: Objects, global: ObjectId, strict: bool, name: Name, v: Value)
    requires ChainOk(chain) && |chain| > 0 && name != This
    requires chain[0].CatchContext? && chain[0].exceptionVarName == name
    ensures var e := AssignFrom(chain, objects, global, strict, name, v, 0);
            e.result == Normal(()) && e.chain == chain[0 := CatchContext(chain[0].catchStrict, name, v)] &&
            e.objects == objects && ChainOk(e.chain) && Resolve(e.chain, e.objects, name) == Normal(Binding(v, None))
  {
    var after := chain[0 := CatchContext(chain[0].catchStrict, name, v)];
    assert ChainOk(after) by {
      forall k | 0 <= k < |after| ensures FrameOk(after[k]) {
        if k > 0 { assert after[k] == chain[k]; }
      }
    }
  }

  // ---------------------------------------------------------------------------------------
  // deleteProperty
  // ---------------------------------------------------------------------------------------

  /**
   * One context's answer to a delete, None when the delete goes on outward: a with-object
   * that has the name deletes it; a catch variable cannot be deleted; in a function that needs
   * an activation or has a with context inside it, a declared name cannot be deleted; an
   * activation or the global object that has the name deletes it.
   */
  function FrameDelete(f: Frame, objects: Objects, name: Name, hasWith: bool): Option<(Completion<bool>, Objects)>
  {
    match f
    case WithContext(w) =>
      if HasOwn(objects, w, name) then Some(DeleteOn(objects, w, name)) else None
    case CatchContext(_, varName, _) =>
      if varName == name then Some((Normal(false), objects)) else None
    case CallContext(_, _, fn, _, _, _, act) =>
      if (fn.needsActivation || hasWith) && fn.code.None? then Some((NullFunction, objects))
      else if (fn.needsActivation || hasWith) && name in fn.code.value.names then Some((Normal(false), objects))
      else if act.Some? && HasOwn(objects, act.value, name) then Some(DeleteOn(objects, act.value, name))
      else None
    case GlobalContext(g, _) =>
      if HasOwn(objects, g, name) then Some(DeleteOn(objects, g, name)) else None
  }

  /** The delete walked outward from frame i. A name no context has is deleted trivially,
      except that strict mode throws SyntaxError. */
  function DeleteFrom(chain: seq<Frame>, objects: Objects, strict: bool, name: Name, i: nat, hasWith: bool)
    : (Completion<bool>, Objects)
    requires i <= |chain|
    decreases |chain| - i
  {
    if i == |chain| then (if strict then Threw(SyntaxError(name)) else Normal(true), objects)
    else match FrameDelete(chain[i], objects, name, hasWith)
      case Some(r) => r
      case None => DeleteFrom(chain, objects, strict, name, i + 1, hasWith || chain[i].WithContext?)
  }

  /** Delete changes at most one object, by removing the one property deleted, and never adds
      an object. */
  lemma {:induction false} DeleteRemovesAtMostTheName(chain: seq<Frame>, objects: Objects, strict: bool, name: Name,
                                                      i: nat, hasWith: bool)
    requires i <= |chain|
    ensures var (r, o) := DeleteFrom(chain, objects, strict, name, i, hasWith);
            o.Keys == objects.Keys &&
            (forall id :: id in o ==> o[id] == objects[id] || o[id] == objects[id] - {name}) &&
            (o != objects ==> r == Normal(true))
    decreases |chain| - i
  {
    if i < |chain| && FrameDelete(chain[i], objects, name, hasWith).None? {
      DeleteRemovesAtMostTheName(chain, objects, strict, name, i + 1, hasWith || chain[i].WithContext?);
    }
  }

  // ---------------------------------------------------------------------------------------
  // Names no context holds
  // ---------------------------------------------------------------------------------------

  /** No context holds the name anywhere: no with-object, catch variable, declared slot,
      activation, function name or global object. */
  predicate Unbound(chain: seq<Frame>, objects: Objects, name: Name)
  {
    forall k :: 0 <= k < |chain| ==> FrameLacks(chain[k], objects, name)
  }

  predicate FrameLacks(f: Frame, objects: Objects, name: Name)
  {
    match f
    case WithContext(w) => !HasOwn(objects, w, name)
    case CatchContext(_, varName, _) => varName != name
    case CallContext(_, _, fn, _, _, _, act) =>
      (fn.code.Some? ==> name !in fn.code.value.names && name != fn.code.value.name) &&
      (act.Some? ==> !HasOwn(objects, act.value, name))
    case GlobalContext(g, _) => !HasOwn(objects, g, name)
  }

  /** Reading a name no context holds throws ReferenceError. */
  lemma {:induction false} UnboundRead(chain: seq<Frame>, objects: Objects, name: Name, i: nat, hasWith: bool, hasCatch: bool)
    requires i <= |chain| && ChainOk(chain) && Unbound(chain, objects, name)
    ensures ResolveFrom(chain, objects, name, i, hasWith, hasCatch) == Threw(ReferenceError(name))
    decreases |chain| - i
  {
    if i < |chain| {
      assert FrameLacks(chain[i], objects, name);
      UnboundRead(chain, objects, name, i + 1, hasWith || chain[i].WithContext?, hasCatch || chain[i].CatchContext?);
    }
  }

  /** Deleting a name no context holds succeeds and changes nothing; strict mode throws
      SyntaxError instead. Every call context on the way has a compiled function, which the
      walk dereferences. */
  lemma {:induction false} UnboundDelete(chain: seq<Frame>, objects: Objects, strict: bool, name: Name, i: nat, hasWith: bool)
    requires i <= |chain| && Unbound(chain, objects, name)
    requires forall k :: i <= k < |chain| && chain[k].CallContext? ==> chain[k].callee.code.Some?
    ensures DeleteFrom(chain, objects, strict, name, i, hasWith) ==
            (if strict then Threw(SyntaxError(name)) else Normal(true), objects)
    decreases |chain| - i
  {
    if i < |chain| {
      assert FrameLacks(chain[i], objects, name);
      UnboundDelete(chain, objects, strict, name, i + 1, hasWith || chain[i].WithContext?);
    }
  }

  /** Assigning a name no context holds, with no QML activation on the way to take it, is a
      ReferenceError in strict mode and for `this`, and otherwise creates it on the global
      object. */
  lemma {:induction false} UnboundAssign(chain: seq<Frame>, objects: Objects, global: ObjectId, strict: bool,
                                         name: Name, v: Value, i: nat)
    requires i <= |chain| && ChainOk(chain) && Unbound(chain, objects, name)
    requires forall k :: i <= k < |chain| ==> !(chain[k].CallContext? && chain[k].qml && chain[k].activation.Some?)
    ensures AssignFrom(chain, objects, global, strict, name, v, i) ==
            if strict || name == This then Effect(Threw(ReferenceError(name)), chain, objects)
            else Effect(Normal(()), chain, PutOn(objects, global, name, v))
    decreases |chain| - i
  {
    if i < |chain| {
      assert FrameLacks(chain[i], objects, name);
      UnboundAssign(chain, objects, global, strict, name, v, i + 1);
    }
  }

  // ---------------------------------------------------------------------------------------
  // createMutableBinding
  // ---------------------------------------------------------------------------------------

  /** The index of the innermost call or QML context, if any. */
  function CallFrameIndex(chain: seq<Frame>): (r: Option<nat>)
    ensures r.Some? ==> r.value < |chain| && chain[r.value].CallContext?
    ensures r.Some? ==> forall j :: 0 <= j < r.value ==> !chain[j].CallContext?
    ensures r.None? ==> forall j :: 0 <= j < |chain| ==> !chain[j].CallContext?
    decreases |chain|
  {
    if chain == [] then None
    else if chain[0].CallContext? then Some(0)
    else match CallFrameIndex(chain[1..])
      case None => None
      case Some(k) => Some(k + 1)
  }

  /** The state createMutableBinding reads and changes. */
  datatype Scopes = Scopes(chain: seq<Frame>, objects: Objects, nextObject: ObjectId)

  /** The object a declaration goes to, allocating the activation of the innermost call context
      when it has none yet. */
  function BindingTarget(s: Scopes, global: ObjectId): (Scopes, ObjectId)
  {
    match CallFrameIndex(s.chain)
    case None => (s, global)
    case Some(k) =>
      var f := s.chain[k];
      if f.activation.Some? then (s, f.activation.value)
      else (Scopes(s.chain[k := f.(activation := Some(s.nextObject))], s.objects[s.nextObject := map[]],
                   s.nextObject + 1), s.nextObject)
  }

  /** createMutableBinding: the target keeps a property it already has; otherwise it gains an
      undefined one, configurable exactly when the declaration is deletable. */
  function Bind(s: Scopes, global: ObjectId, name: Name, deletable: bool): Scopes
  {
    var (t, target) := BindingTarget(s, global);
    if target in t.objects && name in t.objects[target] then t
    else t.(objects := t.objects[target := (if target in t.objects then t.objects[target] else map[])
                                            [name := Property(Undefined, deletable)]])
  }

  /**
   * The declaration lands on the innermost call context's activation (created when absent) or,
   * with no call context, on the global object; a property already there is left as it was,
   * a new one is undefined with configurable equal to deletable; nothing else changes.
   */
  lemma BindTarget(s: Scopes, global: ObjectId, name: Name, deletable: bool)
    requires forall id :: id in s.objects ==> id < s.nextObject
    ensures var b := Bind(s, global, name, deletable);
            var target := BindingTarget(s, global).1;
            |b.chain| == |s.chain| && HasOwn(b.objects, target, name) &&
            (HasOwn(s.objects, target, name) ==> b.objects == BindingTarget(s, global).0.objects) &&
            (!HasOwn(s.objects, target, name) ==> b.objects[target][name] == Property(Undefined, deletable)) &&
            (forall id :: id in s.objects && id != target ==> id in b.objects && b.objects[id] == s.objects[id]) &&
            (forall id :: id in b.objects ==> id in s.objects || id == target) &&
            match CallFrameIndex(s.chain)
            case None => target == global && b.chain == s.chain && b.nextObject == s.nextObject
            case Some(k) =>
              b.chain == s.chain[k := s.chain[k].(activation := Some(target))] &&
              (s.chain[k].activation.Some? ==> target == s.chain[k].activation.value && b.nextObject == s.nextObject) &&
              (s.chain[k].activation.None? ==> target == s.nextObject && target !in s.objects &&
                                               b.objects[target] == map[name := Property(Undefined, deletable)] &&
                                               b.nextObject == s.nextObject + 1)
  {
  }

  /** Giving the innermost call context an activation keeps it the innermost call context. */
  lemma {:induction false} CallFrameIndexKept(chain: seq<Frame>, k: nat, f: Frame)
    requires CallFrameIndex(chain) == Some(k) && f.CallContext?
    ensures CallFrameIndex(chain[k := f]) == Some(k)
    decreases |chain|
  {
    if k > 0 {
      assert chain[k := f][1..] == chain[1..][k - 1 := f];
      CallFrameIndexKept(chain[1..], k - 1, f);
    }
  }

  /** Declaring the same name twice is declaring it once. */
  lemma BindIdempotent(s: Scopes, global: ObjectId, name: Name, deletable: bool, again: bool)
    ensures Bind(Bind(s, global, name, deletable), global, name, again) == Bind(s, global, name, deletable)
  {
    match CallFrameIndex(s.chain)
    case None =>
    case Some(k) =>
      var target := BindingTarget(s, global).1;
      CallFrameIndexKept(s.chain, k, s.chain[k].(activation := Some(target)));
  }

  // ---------------------------------------------------------------------------------------
  // newCallContext
  // ---------------------------------------------------------------------------------------

  /** The internal class agrees with the formal and local counts. */
  predicate CompiledOk(c: CompiledFunction)
  {
    |c.names| == c.nFormals + c.nLocals
  }

  /**
   * A call context for a call of `function` with `callData`, inside the function's scope:
   * every local undefined, the arguments passed followed by undefined up to the number of
   * formals, argc the larger of the two, the caller's argc kept as the real argument count,
   * no activation yet.
   */
  method NewCallContext(callee: FunctionObject, callData: CallData, scope: seq<Frame>) returns (chain: seq<Frame>)
    requires callee.code.Some?
    ensures |chain| == |scope| + 1 && chain[1..] == scope
    ensures var c := chain[0];
            var nFormals := callee.code.value.nFormals;
            c.CallContext? && !c.qml && c.callee == callee && c.callStrict == callee.strictMode &&
            c.activation.None? && c.realArgumentCount == |callData.args| &&
            c.callData.thisObject == callData.thisObject &&
            |c.locals| == callee.code.value.nLocals && (forall k :: 0 <= k < |c.locals| ==> c.locals[k] == Undefined) &&
            |c.callData.args| == (if |callData.args| < nFormals then nFormals else |callData.args|) &&
            c.callData.args[..|callData.args|] == callData.args &&
            (forall k :: |callData.args| <= k < |c.callData.args| ==> c.callData.args[k] == Undefined)
  {
    var nLocals := callee.code.value.nLocals;
    var nFormals := callee.code.value.nFormals;
    var locals: seq<Value> := [];
    while |locals| < nLocals
      invariant |locals| <= nLocals
      invariant forall k :: 0 <= k < |locals| ==> locals[k] == Undefined
    {
      locals := locals + [Undefined];
    }
    var args := callData.args;
    while |args| < nFormals
      invariant |callData.args| <= |args| && args[..|callData.args|] == callData.args
      invariant |callData.args| < nFormals ==> |args| <= nFormals
      invariant |callData.args| >= nFormals ==> args == callData.args
      invariant forall k :: |callData.args| <= k < |args| ==> args[k] == Undefined
    {
      args := args + [Undefined];
    }
    var c := CallContext(false, callee.strictMode, callee, CallData(callData.thisObject, args),
                         |callData.args|, locals, None);
    chain := [c] + scope;
  }

  /** A fresh call context has the layout resolution relies on, and needs arguments of its own
      exactly when its function needs an activation: argc already covers every formal. */
  lemma FreshCallContext(c: Frame, callee: FunctionObject, passed: nat)
    requires callee.code.Some? && CompiledOk(callee.code.value)
    requires c.CallContext? && c.callee == callee && |c.locals| == callee.code.value.nLocals
    requires |c.callData.args| == if passed < callee.code.value.nFormals then callee.code.value.nFormals else passed
    ensures FrameOk(c)
    ensures NeedsOwnArguments(c) <==> callee.needsActivation
    ensures FormalCount(c) == callee.code.value.nFormals && VariableCount(c) == callee.code.value.nLocals
  {
  }

  /** What every execution context keeps: a current context, frames with their layout and
      their objects, the global object, and an allocator ahead of every object. */
  ghost predicate ScopesOk(s: Scopes, global: ObjectId)
  {
    |s.chain| > 0 && ChainOk(s.chain) && global in s.objects &&
    (forall k :: 0 <= k < |s.chain| ==> ObjectsPresent(s.chain[k], s.objects)) &&
    (forall id :: id in s.objects ==> id < s.nextObject)
  }

  // ---------------------------------------------------------------------------------------
  // The current context
  // ---------------------------------------------------------------------------------------

  /**
   * An execution context with the chain outside it and the engine's objects: `chain[0]` is the
   * context the operations are called on, `chain[1..]` its outer contexts.
   */
  class ExecutionContext {
    var chain: seq<Frame>
    var objects: Objects
    var nextObject: ObjectId
    const globalObject: ObjectId

    ghost predicate Valid()
      reads this
    {
      ScopesOk(Scopes(chain, objects, nextObject), globalObject)
    }

    function State(): Scopes
      reads this
    {
      Scopes(chain, objects, nextObject)
    }

    /** The global context of an engine whose global object is empty. */
    constructor ()
      ensures Valid() && chain == [GlobalContext(globalObject, ObjectRef(globalObject))]
      ensures objects == map[globalObject := map[]]
    {
      globalObject := 0;
      chain := [GlobalContext(0, ObjectRef(0))];
      objects := map[0 := map[]];
      nextObject := 1;
    }

    /** getProperty. */
    method GetProperty(name: Name) returns (r: Completion<Value>)
      requires Valid()
      ensures r == ValueOf(Resolve(chain, objects, name))
    {
      if name == This {
        return Normal(ThisValue(chain));
      }
      var hasWith, hasCatch := false, false;
      var i := 0;
      while i < |chain|
        invariant i <= |chain|
        invariant ResolveFrom(chain, objects, name, i, hasWith, hasCatch) == ResolveFrom(chain, objects, name, 0, false, false)
      {
        var found := FrameLookup(chain[i], objects, name, hasWith, hasCatch);
        if found.Some? {
          return Normal(found.value.value);
        }
        hasWith := hasWith || chain[i].WithContext?;
        hasCatch := hasCatch || chain[i].CatchContext?;
        i := i + 1;
      }
      return Threw(ReferenceError(name));
    }

    /** getPropertyAndBase: the value getProperty reads, with the base object of a call
        through the name. */
    method GetPropertyAndBase(name: Name) returns (r: Completion<Value>, base: Option<ObjectId>)
      requires Valid()
      ensures r == ValueOf(Resolve(chain, objects, name)) && base == BaseOf(Resolve(chain, objects, name))
    {
      base := None;
      if name == This {
        return Normal(ThisValue(chain)), base;
      }
      var hasWith, hasCatch := false, false;
      var i := 0;
      while i < |chain|
        invariant i <= |chain|
        invariant ResolveFrom(chain, objects, name, i, hasWith, hasCatch) == ResolveFrom(chain, objects, name, 0, false, false)
      {
        var found := FrameLookup(chain[i], objects, name, hasWith, hasCatch);
        if found.Some? {
          return Normal(found.value.value), found.value.base;
        }
        hasWith := hasWith || chain[i].WithContext?;
        hasCatch := hasCatch || chain[i].CatchContext?;
        i := i + 1;
      }
      return Threw(ReferenceError(name)), base;
    }

    /** setProperty. */
    method SetProperty(name: Name, v: Value) returns (r: Completion<()>)
      requires Valid()
      modifies this
      ensures Valid()
      ensures var e := AssignFrom(old(chain), old(objects), globalObject, StrictMode(old(chain)[0]), name, v, 0);
              r == e.result && chain == e.chain && objects == e.objects && nextObject == old(nextObject)
    {
      var i := 0;
      while i < |chain|
        invariant i <= |chain| && chain == old(chain) && objects == old(objects)
        invariant AssignFrom(chain, objects, globalObject, StrictMode(chain[0]), name, v, i) ==
                  AssignFrom(chain, objects, globalObject, StrictMode(chain[0]), name, v, 0)
      {
        var written := FrameAssign(chain[i], objects, name, v);
        if written.Some? {
          AssignKeepsShape(chain, objects, globalObject, StrictMode(chain[0]), name, v, i);
          FrameAssignShape(chain[i], objects, name, v);
          chain, objects := chain[i := written.value.0], written.value.1;
          return Normal(());
        }
        i := i + 1;
      }
      if StrictMode(chain[0]) || name == This {
        return Threw(ReferenceError(name));
      }
      objects := PutOn(objects, globalObject, name, v);
      return Normal(());
    }

    /** deleteProperty. */
    method DeleteProperty(name: Name) returns (r: Completion<bool>)
      requires Valid()
      modifies this
      ensures Valid()
      ensures var d := DeleteFrom(old(chain), old(objects), StrictMode(old(chain)[0]), name, 0, false);
              r == d.0 && objects == d.1 && chain == old(chain) && nextObject == old(nextObject)
    {
      var hasWith := false;
      var i := 0;
      while i < |chain|
        invariant i <= |chain| && objects == old(objects)
        invariant DeleteFrom(chain, objects, StrictMode(chain[0]), name, i, hasWith) ==
                  DeleteFrom(chain, objects, StrictMode(chain[0]), name, 0, false)
      {
        var deleted := FrameDelete(chain[i], objects, name, hasWith);
        if deleted.Some? {
          DeleteRemovesAtMostTheName(chain, objects, StrictMode(chain[0]), name, i, hasWith);
          r, objects := deleted.value.0, deleted.value.1;
          return;
        }
        hasWith := hasWith || chain[i].WithContext?;
        i := i + 1;
      }
      if StrictMode(chain[0]) {
        return Threw(SyntaxError(name));
      }
      return Normal(true);
    }

    /** createMutableBinding. */
    method CreateMutableBinding(name: Name, deletable: bool)
      requires Valid()
      modifies this
      ensures Valid()
      ensures State() == Bind(old(State()), globalObject, name, deletable)
    {
      var target := globalObject;
      var i := 0;
      while i < |chain| && !chain[i].CallContext?
        invariant i <= |chain| && forall j :: 0 <= j < i ==> !chain[j].CallContext?
      {
        i := i + 1;
      }
      if i < |chain| {
        if chain[i].activation.None? {
          objects := objects[nextObject := map[]];
          chain := chain[i := chain[i].(activation := Some(nextObject))];
          nextObject := nextObject + 1;
        }
        target := chain[i].activation.value;
      }
      ghost var before := old(State());
      assert CallFrameIndex(before.chain) == if i < |chain| then Some(i) else None;
      assert State() == BindingTarget(before, globalObject).0 && target == BindingTarget(before, globalObject).1;
      BindOk(before, globalObject, name, deletable);
      if target in objects && name in objects[target] {
        return;
      }
      objects := objects[target := objects[target][name := Property(Undefined, deletable)]];
    }
  }

  /** Declaring a name keeps the chain's layout, the objects the frames name and the
      allocator ahead of every object. */
  lemma BindOk(s: Scopes, global: ObjectId, name: Name, deletable: bool)
    requires ScopesOk(s, global)
    ensures ScopesOk(BindingTarget(s, global).0, global) && BindingTarget(s, global).1 in BindingTarget(s, global).0.objects
    ensures ScopesOk(Bind(s, global, name, deletable), global)
  {
    var (t, target) := BindingTarget(s, global);
    match CallFrameIndex(s.chain)
    case None =>
    case Some(k) =>
      forall j | 0 <= j < |t.chain| ensures FrameOk(t.chain[j]) && ObjectsPresent(t.chain[j], t.objects) {
        if j != k { assert t.chain[j] == s.chain[j]; }
      }
  }
}
