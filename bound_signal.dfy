/**
 * Bound signals: the handlers QML attaches to an object's signals.
 *
 * Each object's QQmlData keeps its handlers in an intrusive doubly linked list whose back-links
 * point at the field that points forward (the list head, or the previous handler's next field).
 * A handler holds its expression through a reference-counting pointer, and the expression turns
 * its source text into a function the first time the signal fires.
 */
module BoundSignals {
  import opened Options

  // ---------------------------------------------------------------------------------------
  // The intrusive handler list
  // ---------------------------------------------------------------------------------------

  /** Where m_prevSignal points: nowhere, at the list head of an object's QQmlData, or at the
      m_nextSignal field of the handler before. */
  datatype BackLink = Unlinked | HeadOf(data: QmlData) | NextOf(node: BoundSignal)

  /** The part of an object's QQmlData that bound signals use: the head of its handler list. */
  class QmlData {
    var signalHandlers: BoundSignal?
    /** The handlers reachable from `signalHandlers`, first to last. */
    ghost var handlers: seq<BoundSignal>

    constructor ()
      ensures signalHandlers == null && handlers == [] && ListOk(this)
    {
      signalHandlers := null;
      handlers := [];
    }
  }

  /**
   * The list of an object's handlers is well linked: no handler twice, the head points at the
   * first, each handler's next field at the one after it, and each back-link at the field that
   * points at the handler.
   */
  ghost predicate ListOk(d: QmlData)
    reads d, d.handlers
  {
    var hs := d.handlers;
    (forall i, j :: 0 <= i < j < |hs| ==> hs[i] != hs[j]) &&
    d.signalHandlers == (if hs == [] then null else hs[0]) &&
    (hs != [] ==> hs[0].prevSignal == HeadOf(d) && hs[|hs| - 1].nextSignal == null) &&
    (forall i :: 0 < i < |hs| ==> hs[i].prevSignal == NextOf(hs[i - 1])) &&
    (forall i :: 0 < i < |hs| ==> hs[i - 1].nextSignal == hs[i])
  }

  /** The list without one handler, the others in their order. */
  function Without(hs: seq<BoundSignal>, x: BoundSignal): (r: seq<BoundSignal>)
    ensures x !in r && forall i :: 0 <= i < |r| ==> r[i] in hs
    ensures forall i :: 0 <= i < |hs| && hs[i] != x ==> hs[i] in r
    decreases |hs|
  {
    if hs == [] then [] else (if hs[0] == x then [] else [hs[0]]) + Without(hs[1..], x)
  }

  /** In a list without repetitions, dropping the handler at k is splicing it out. */
  lemma {:induction false} WithoutAt(hs: seq<BoundSignal>, k: nat)
    requires k < |hs| && forall i, j :: 0 <= i < j < |hs| ==> hs[i] != hs[j]
    ensures Without(hs, hs[k]) == hs[..k] + hs[k + 1..]
    decreases |hs|
  {
    if k == 0 {
      WithoutAbsent(hs[1..], hs[0]);
    } else {
      SpliceTail(hs, k);
      WithoutAt(hs[1..], k - 1);
    }
  }

  /** Splicing out a later handler keeps the first one in front of the spliced tail. */
  lemma SpliceTail(hs: seq<BoundSignal>, k: nat)
    requires 0 < k < |hs| && forall i, j :: 0 <= i < j < |hs| ==> hs[i] != hs[j]
    ensures forall i, j :: 0 <= i < j < |hs[1..]| ==> hs[1..][i] != hs[1..][j]
    ensures hs[1..][k - 1] == hs[k] && Without(hs, hs[k]) == [hs[0]] + Without(hs[1..], hs[k])
    ensures hs[..k] + hs[k + 1..] == [hs[0]] + (hs[1..][..k - 1] + hs[1..][k..])
  {
    assert hs[0] != hs[k];
    SpliceFront(hs, k);
  }

  /** A splice at k > 0 keeps the first element in front of the splice of the tail at k - 1. */
  lemma SpliceFront<T>(s: seq<T>, k: nat)
    requires 0 < k < |s|
    ensures s[..k] + s[k + 1..] == [s[0]] + (s[1..][..k - 1] + s[1..][k..])
  {
    assert s[1..][..k - 1] == s[1..k];
    assert s[1..][k..] == s[k + 1..];
    assert s[..k] == [s[0]] + s[1..k];
  }

  /** Dropping a handler that is not listed leaves the list as it was. */
  lemma {:induction false} WithoutAbsent(hs: seq<BoundSignal>, x: BoundSignal)
    requires x !in hs
    ensures Without(hs, x) == hs
    decreases |hs|
  {
    if hs != [] {
      WithoutAbsent(hs[1..], x);
      assert [hs[0]] + hs[1..] == hs;
    }
  }
  // ---------------------------------------------------------------------------------------
  // Expressions and their reference counts
  // ---------------------------------------------------------------------------------------

  /** The parameter list signalParameterStringForJS produces for the signal, or its error. */
  datatype ParameterList = Parameters(text: string) | InvalidParameter(error: string)

  /** The source handed to the script engine: the handler body wrapped in a named function. */
  function Wrapper(handlerName: string, parameters: string, body: string): string
  {
    "(function " + handlerName + "(" + parameters + ") { " + body + " })"
  }

  /** The body sits at a fixed place in the wrapper, so the wrapper determines it. */
  lemma WrapperBody(handlerName: string, parameters: string, body: string)
    ensures var w := Wrapper(handlerName, parameters, body);
            var start := 10 + |handlerName| + 1 + |parameters| + 4;
            start + 3 <= |w| && w[start..|w| - 3] == body && w[|w| - 3..] == " })"
  {
    var head := "(function " + handlerName + "(" + parameters + ") { ";
    assert |head| == 10 + |handlerName| + 1 + |parameters| + 4;
    assert Wrapper(handlerName, parameters, body) == head + body + " })";
  }

  /** Distinct bodies give distinct wrappers under the same name and parameters. */
  lemma WrapperInjective(handlerName: string, parameters: string, b1: string, b2: string)
    requires Wrapper(handlerName, parameters, b1) == Wrapper(handlerName, parameters, b2)
    ensures b1 == b2
  {
    WrapperBody(handlerName, parameters, b1);
    WrapperBody(handlerName, parameters, b2);
  }

  /**
   * The fields of a QQmlBoundSignalExpression that evaluate reads and writes: the three source
   * strings, whether the function is compiled, whether a parameter name was found invalid, and
   * the text the compiled function reads back as.
   */
  datatype ExpressionState = ExpressionState(expressionText: string, handlerName: string, parameterString: string,
                                             functionValid: bool, invalidParameterName: bool, functionText: string)
  {
    /** expression(): the stored source text until the function is compiled, then the
        function's own text. */
    function Text(): string
    {
      if functionValid then functionText else expressionText
    }
  }

  /**
   * evaluate, up to the call of the function, as a step on the expression's state: after an
   * invalid parameter name, or once the function is compiled, the state stays and no source is
   * built. Otherwise the parameter string (or, when it is empty, the signal's own parameter
   * names) goes into the wrapper; a parameter error marks the expression and keeps the strings,
   * and a wrapper clears the three strings before the engine's answer `compiled` is known.
   */
  function Evaluation(s: ExpressionState, signalParameters: ParameterList, compiled: Option<string>)
    : (ExpressionState, Option<string>)
  {
    if s.invalidParameterName || s.functionValid then (s, None)
    else
      var params := if s.parameterString == [] then signalParameters else Parameters(s.parameterString);
      if params.InvalidParameter? then (s.(invalidParameterName := true), None)
      else
        var cleared := s.(expressionText := [], handlerName := [], parameterString := []);
        var next := if compiled.Some? then cleared.(functionValid := true, functionText := compiled.value) else cleared;
        (next, Some(Wrapper(s.handlerName, params.text, s.expressionText)))
  }

  /**
   * What one evaluation does: a source is built exactly when the expression is neither inert
   * nor missing its parameter names, and it carries the handler body; a parameter error marks
   * the expression and keeps its text; a built source clears the strings, and expression() is
   * then the compiled function's text, or empty when the engine returned none.
   */
  lemma EvaluationCases(s: ExpressionState, signalParameters: ParameterList, compiled: Option<string>)
    ensures var (next, source) := Evaluation(s, signalParameters, compiled);
            var params := if s.parameterString == [] then signalParameters else Parameters(s.parameterString);
            (source.Some? <==> !s.invalidParameterName && !s.functionValid && params.Parameters?) &&
            (s.invalidParameterName || s.functionValid ==> next == s) &&
            (!s.invalidParameterName && !s.functionValid && params.InvalidParameter? ==>
               next.invalidParameterName && !next.functionValid && next.Text() == s.expressionText &&
               next.handlerName == s.handlerName && next.parameterString == s.parameterString) &&
            (source.Some? ==>
               source.value == Wrapper(s.handlerName, params.text, s.expressionText) &&
               next.expressionText == [] && next.handlerName == [] && next.parameterString == [] &&
               !next.invalidParameterName && next.functionValid == compiled.Some? &&
               next.Text() == (if compiled.Some? then compiled.value else ""))
  {
  }

  /**
   * Once a parameter name has been found invalid, the expression is inert: the first
   * evaluation builds nothing and keeps the text, and every later one returns at once.
   */
  lemma EvaluateAfterInvalidParameter(s: ExpressionState, signalParameters: ParameterList, compiled: Option<string>,
                                      again: ParameterList, compiledAgain: Option<string>)
    requires !s.functionValid && !s.invalidParameterName && s.parameterString == []
    requires signalParameters.InvalidParameter?
    ensures var (next, source) := Evaluation(s, signalParameters, compiled);
            source == None && next.invalidParameterName && !next.functionValid && next.Text() == s.expressionText &&
            Evaluation(next, again, compiledAgain) == (next, None)
  {
  }

  /**
   * The source text is cleared before the engine's answer is known: when the engine returns
   * no function, expression() is empty from then on, and the next evaluation wraps an empty
   * body under an empty name with the signal's own parameter names (or marks the expression
   * invalid when those are in error).
   */
  lemma EvaluateAfterFailedCompile(s: ExpressionState, signalParameters: ParameterList, again: ParameterList,
                                   compiled: Option<string>)
    requires !s.functionValid && !s.invalidParameterName
    requires s.parameterString != [] || signalParameters.Parameters?
    ensures var (next, source) := Evaluation(s, signalParameters, None);
            source.Some? && next.Text() == "" && !next.functionValid && !next.invalidParameterName &&
            var (last, sourceAgain) := Evaluation(next, again, compiled);
            sourceAgain == (if again.InvalidParameter? then None else Some(Wrapper("", again.text, ""))) &&
            last.invalidParameterName == again.InvalidParameter?
  {
  }

  /**
   * After a compile that succeeds, expression() is the function's text, and later
   * evaluations reuse the function: no new source, no change of state.
   */
  lemma EvaluateAfterCompile(s: ExpressionState, signalParameters: ParameterList, f: string,
                             again: ParameterList, compiledAgain: Option<string>)
    requires !s.functionValid && !s.invalidParameterName
    requires s.parameterString != [] || signalParameters.Parameters?
    ensures var (next, source) := Evaluation(s, signalParameters, Some(f));
            source.Some? && next.functionValid && next.Text() == f &&
            Evaluation(next, again, compiledAgain) == (next, None)
  {
  }

  /**
   * QQmlBoundSignalExpression: a reference count (QQmlRefCount starts at one, held by its
   * creator), whether it notifies on a value change (a bound signal never does), the three
   * source strings the wrapper is built from, and the compiled function once there is one.
   */
  class BoundSignalExpression {
    var refCount: nat
    var notifyOnValueChanged: bool
    var expressionText: string
    var handlerName: string
    var parameterString: string
    var functionValid: bool
    var invalidParameterName: bool
    /** The text the compiled function reads back as. */
    var functionText: string

    constructor (expressionText: string, handlerName: string, parameterString: string)
      ensures refCount == 1 && !notifyOnValueChanged && !functionValid && !invalidParameterName
      ensures this.expressionText == expressionText && this.handlerName == handlerName
      ensures this.parameterString == parameterString
    {
      refCount := 1;
      notifyOnValueChanged := false;
      this.expressionText := expressionText;
      this.handlerName := handlerName;
      this.parameterString := parameterString;
      functionValid := false;
      invalidParameterName := false;
      functionText := "";
    }

    /** The fields evaluate works on. */
    function State(): ExpressionState
      reads this
    {
      ExpressionState(expressionText, handlerName, parameterString, functionValid, invalidParameterName, functionText)
    }

    /** expression() */
    function Expression(): string
      reads this
    {
      State().Text()
    }

    method AddRef()
      modifies this`refCount
      ensures refCount == old(refCount) + 1
    {
      refCount := refCount + 1;
    }

    /** QQmlRefCount::release; the expression is destroyed once the count reaches zero. */
    method Release()
      requires refCount > 0
      modifies this`refCount
      ensures refCount == old(refCount) - 1
    {
      refCount := refCount - 1;
    }

    /**
     * evaluate, up to the call of the function: the step `Evaluation` on the expression's
     * fields. `compiled` is the function the engine returns for the wrapper, None when there
     * is none; the call itself and its arguments are not modelled.
     */
    method Evaluate(signalParameters: ParameterList, compiled: Option<string>) returns (source: Option<string>)
      modifies this`expressionText, this`handlerName, this`parameterString, this`functionValid,
               this`invalidParameterName, this`functionText
      ensures refCount == old(refCount) && notifyOnValueChanged == old(notifyOnValueChanged)
      ensures (State(), source) == Evaluation(old(State()), signalParameters, compiled)
    {
      if invalidParameterName || functionValid {
        return None;
      }
      var text := "(function " + handlerName + "(";
      if parameterString == [] {
        if signalParameters.InvalidParameter? {
          invalidParameterName := true;
          return None;
        }
        text := text + signalParameters.text;
      } else {
        text := text + parameterString;
      }
      text := text + ") { " + expressionText + " })";
      expressionText, handlerName, parameterString := [], [], [];
      source := Some(text);
      if compiled.None? {
        return;
      }
      functionText := compiled.value;
      functionValid := true;
    }
  }

  /**
   * QQmlBoundSignalExpressionPointer: holds one reference to a non-null target. Only the
   * target's count is ever written (`{e} - {null}` is the target, if any).
   */
  class ExpressionPointer {
    var o: BoundSignalExpression?

    /** The pointer's reference is one of its target's references. */
    ghost predicate Held()
      reads this, o
    {
      o != null ==> o.refCount > 0
    }

    /** Construction from a raw pointer adds a reference to a non-null target. */
    constructor (e: BoundSignalExpression?)
      modifies ({e} - {null})`refCount
      ensures o == e && Held()
      ensures e != null ==> e.refCount == old(e.refCount) + 1
    {
      o := e;
      new;
      if e != null {
        e.AddRef();
      }
    }

    /** Copy construction adds a reference to the shared target. */
    constructor Copy(other: ExpressionPointer)
      modifies ({other.o} - {null})`refCount
      ensures o == other.o && Held()
      ensures o != null ==> o.refCount == old(other.o.refCount) + 1
    {
      o := other.o;
      new;
      if o != null {
        o.AddRef();
      }
    }

    /** The destructor releases the target's reference. */
    method Destroy()
      requires Held()
      modifies ({o} - {null})`refCount
      ensures o != null ==> o.refCount == old(o.refCount) - 1
    {
      if o != null {
        o.Release();
      }
    }

    /**
     * Assignment adds a reference to the incoming target before releasing the current one, so
     * assigning a pointer its own target leaves the count as it was: a target whose only
     * reference is this pointer's is never released to zero on the way.
     */
    method Assign(e: BoundSignalExpression?)
      requires Held()
      modifies this`o, ({e, o} - {null})`refCount
      ensures o == e && Held()
      ensures e != null && e == old(o) ==> e.refCount == old(e.refCount)
      ensures e != null && e != old(o) ==> e.refCount == old(e.refCount) + 1
      ensures old(o) != null && old(o) != e ==> old(o).refCount == old(o.refCount) - 1
    {
      if e != null {
        e.AddRef();
      }
      if o != null {
        o.Release();
      }
      o := e;
    }

    /** Assigning null: the current target, if any, is released. */
    method Clear()
      requires Held()
      modifies this`o, ({o} - {null})`refCount
      ensures o == null
      ensures old(o) != null ==> old(o).refCount == old(o.refCount) - 1
    {
      if o != null {
        o.Release();
      }
      o := null;
    }

    /** take: the current target is released and the new one stored without a reference of
        its own, the pointer taking over the caller's reference. */
    method Take(e: BoundSignalExpression?)
      requires Held() && (e != null ==> e.refCount > 0) && (e != null && e == o ==> e.refCount > 1)
      modifies this`o, ({o} - {null})`refCount
      ensures o == e && Held()
      ensures old(o) != null ==> old(o).refCount == old(o.refCount) - 1
    {
      if o != null {
        o.Release();
      }
      o := e;
    }
  }

  // ---------------------------------------------------------------------------------------
  // Bound signals
  // ---------------------------------------------------------------------------------------

  /**
   * QQmlBoundSignal with the links of QQmlAbstractBoundSignal: its place in its owner's handler
   * list, the signal index it is connected to, its expression pointer and whether it is
   * evaluating.
   */
  class BoundSignal {
    var prevSignal: BackLink
    var nextSignal: BoundSignal?
    const index: int
    const expression: ExpressionPointer
    var isEvaluating: bool

    /**
     * A handler for signal `signal`, put at the head of the owner's handler list, with no
     * expression yet. `signal` is the index after originalClone; connecting it is not modelled.
     */
    constructor (signal: int, owner: QmlData)
      requires ListOk(owner)
      modifies owner, owner.handlers
      ensures ListOk(owner) && owner.handlers == [this] + old(owner.handlers)
      ensures index == signal && expression.o == null && fresh(expression) && !isEvaluating
    {
      prevSignal := Unlinked;
      nextSignal := null;
      index := signal;
      expression := new ExpressionPointer(null);
      isEvaluating := false;
      new;
      AddToObject(owner);
    }

    /**
     * addToObject: an unlinked handler becomes the first of the object's handlers; the old
     * first handler's back-link now points at this handler's next field. Only links change.
     */
    method AddToObject(d: QmlData)
      requires prevSignal.Unlinked? && ListOk(d)
      modifies this`prevSignal, this`nextSignal, d`signalHandlers, d`handlers, d.handlers`prevSignal
      ensures ListOk(d) && d.handlers == [this] + old(d.handlers)
      ensures isEvaluating == old(isEvaluating) && forall h :: h in old(d.handlers) ==> h.isEvaluating == old(h.isEvaluating)
    {
      forall i | 0 <= i < |d.handlers| ensures d.handlers[i] != this {
        if i > 0 { assert d.handlers[i].prevSignal == NextOf(d.handlers[i - 1]); }
      }
      nextSignal := d.signalHandlers;
      if nextSignal != null {
        nextSignal.prevSignal := NextOf(this);
      }
      prevSignal := HeadOf(d);
      d.signalHandlers := this;
      d.handlers := [this] + d.handlers;
    }

    /**
     * removeFromObject: a linked handler is spliced out of its object's list and both of its
     * links are cleared; an unlinked one is left alone, so removing twice is removing once.
     */
    method RemoveFromObject(ghost d: QmlData)
      requires ListOk(d) && (prevSignal.Unlinked? || this in d.handlers)
      requires prevSignal.Unlinked? ==> nextSignal == null
      modifies this`prevSignal, this`nextSignal, d`signalHandlers, d`handlers, d.handlers`prevSignal, d.handlers`nextSignal
      ensures ListOk(d) && prevSignal.Unlinked? && nextSignal == null
      ensures d.handlers == Without(old(d.handlers), this)
      ensures old(prevSignal).Unlinked? ==> unchanged(this, d)
      ensures isEvaluating == old(isEvaluating) && forall h :: h in old(d.handlers) ==> h.isEvaluating == old(h.isEvaluating)
    {
      ghost var hs := d.handlers;
      if prevSignal.Unlinked? {
        forall i | 0 <= i < |hs| ensures hs[i] != this {
          if i > 0 { assert hs[i].prevSignal == NextOf(hs[i - 1]); }
        }
        WithoutAbsent(hs, this);
        return;
      }
      ghost var k :| 0 <= k < |hs| && hs[k] == this;
      WithoutAt(hs, k);
      Unlink(d, k);
    }

    /** The pointer updates of removeFromObject for the handler at position k. */
    method Unlink(ghost d: QmlData, ghost k: nat)
      requires ListOk(d) && k < |d.handlers| && d.handlers[k] == this
      modifies this`prevSignal, this`nextSignal, d`signalHandlers, d`handlers, d.handlers`prevSignal, d.handlers`nextSignal
      ensures ListOk(d) && prevSignal.Unlinked? && nextSignal == null
      ensures d.handlers == old(d.handlers[..k] + d.handlers[k + 1..])
      ensures forall h :: h in old(d.handlers) ==> h.isEvaluating == old(h.isEvaluating)
    {
      ghost var hs := d.handlers;
      if k > 0 { assert hs[k].prevSignal == NextOf(hs[k - 1]); }
      if k + 1 < |hs| { assert hs[k].nextSignal == hs[k + 1]; }
      if prevSignal.HeadOf? {
        prevSignal.data.signalHandlers := nextSignal;
      } else {
        prevSignal.node.nextSignal := nextSignal;
      }
      if nextSignal != null {
        nextSignal.prevSignal := prevSignal;
      }
      prevSignal := Unlinked;
      nextSignal := null;
      d.handlers := hs[..k] + hs[k + 1..];
    }

    /**
     * setExpression: stores `e` with a reference of its own and notification on change turned
     * off, and returns the previous expression in a pointer that carries the reference this
     * handler held, so the previous expression's count is unchanged. Only counts and the
     * incoming expression's notification flag are written.
     */
    method SetExpression(e: BoundSignalExpression?) returns (previous: ExpressionPointer)
      requires expression.Held()
      modifies expression`o, ({expression.o, e} - {null})`refCount, ({e} - {null})`notifyOnValueChanged
      ensures fresh(previous) && previous.o == old(expression.o) && expression.o == e && expression.Held()
      ensures e != null ==> !e.notifyOnValueChanged && e.refCount == old(e.refCount) + 1
      ensures old(expression.o) != null && old(expression.o) != e ==> old(expression.o).refCount == old(expression.o.refCount)
    {
      previous := new ExpressionPointer.Copy(expression);
      expression.Assign(e);
      if expression.o != null {
        expression.o.notifyOnValueChanged := false;
      }
    }

    /**
     * takeExpression: stores `e` taking over the caller's reference, and returns the previous
     * expression in a pointer that carries this handler's reference: no count changes.
     */
    method TakeExpression(e: BoundSignalExpression?) returns (previous: ExpressionPointer)
      requires expression.Held() && (e != null ==> e.refCount > 0)
      modifies expression`o, ({expression.o, e} - {null})`refCount, ({e} - {null})`notifyOnValueChanged
      ensures fresh(previous) && previous.o == old(expression.o) && expression.o == e
      ensures e != null ==> !e.notifyOnValueChanged && e.refCount == old(e.refCount)
      ensures old(expression.o) != null ==> old(expression.o).refCount == old(expression.o.refCount)
    {
      previous := new ExpressionPointer.Copy(expression);
      expression.Take(e);
      if expression.o != null {
        expression.o.notifyOnValueChanged := false;
      }
    }

    /**
     * QQmlBoundSignal_callback: nothing without an expression; otherwise the handler is marked
     * evaluating (`evaluating` records the mark at the point of evaluation) while the
     * expression evaluates when it has an engine, and unmarked after.
     */
    method Callback(hasEngine: bool, signalParameters: ParameterList, compiled: Option<string>)
      returns (source: Option<string>, ghost evaluating: bool)
      modifies this`isEvaluating, ({expression.o} - {null})`expressionText, ({expression.o} - {null})`handlerName,
               ({expression.o} - {null})`parameterString, ({expression.o} - {null})`functionValid,
               ({expression.o} - {null})`invalidParameterName, ({expression.o} - {null})`functionText
      ensures old(expression.o) == null ==> isEvaluating == old(isEvaluating) && source == None
      ensures old(expression.o) != null ==> evaluating && !isEvaluating
      ensures old(expression.o) != null && hasEngine ==>
                (expression.o.State(), source) == Evaluation(old(expression.o.State()), signalParameters, compiled) &&
                expression.o.refCount == old(expression.o.refCount) &&
                expression.o.notifyOnValueChanged == old(expression.o.notifyOnValueChanged)
      ensures old(expression.o) != null && !hasEngine ==> unchanged(expression.o) && source == None
    {
      source, evaluating := None, false;
      if expression.o == null {
        return;
      }
      isEvaluating := true;
      evaluating := isEvaluating;
      if hasEngine {
        source := expression.o.Evaluate(signalParameters, compiled);
      }
      isEvaluating := false;
    }

    /** ~QQmlBoundSignal: the expression pointer is set to null, releasing its reference. */
    method DropExpression()
      requires expression.Held()
      modifies expression`o, ({expression.o} - {null})`refCount
      ensures expression.o == null
      ensures old(expression.o) != null ==> old(expression.o).refCount == old(expression.o.refCount) - 1
    {
      expression.Clear();
    }

    /**
     * The destructor chain: ~QQmlBoundSignal drops the expression, releasing the handler's
     * reference, then ~QQmlAbstractBoundSignal removes the handler from its object's list. Only
     * link fields, the pointer and the count are written, so every handler keeps its
     * `isEvaluating`.
     */
    method Destroy(ghost d: QmlData)
      requires ListOk(d) && (prevSignal.Unlinked? || this in d.handlers) && expression.Held()
      requires prevSignal.Unlinked? ==> nextSignal == null
      modifies this`prevSignal, this`nextSignal, d`signalHandlers, d`handlers, d.handlers`prevSignal, d.handlers`nextSignal
      modifies expression`o, ({expression.o} - {null})`refCount
      ensures ListOk(d) && d.handlers == Without(old(d.handlers), this) && prevSignal.Unlinked?
      ensures expression.o == null
      ensures old(expression.o) != null ==> old(expression.o).refCount == old(expression.o.refCount) - 1
    {
      expression.Clear();
      RemoveFromObject(d);
    }
  }
}
