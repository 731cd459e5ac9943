/**
 * EvalInstructionSelection's driver: runAll, which selects instructions for every function
 * of the module in order and hands the result to the backend, and compile, which goes
 * through the JIT unit cache first: the directory check, the cache file named after the
 * module, its integrity test, the restore from it, and the save after a fresh compile.
 *
 * The backend's machine code for each function and the JS unit generator's output are
 * parameters (`Backend`); so are the host services the cache uses (`Host`).
 */
module CompileDriver {
  import opened Options
  import opened ByteCodec
  import opened UnitCacheFormat
  import opened IR
  import opened InstructionSelection
  import opened UnitCache
  import opened CacheGate

  // ---------------------------------------------------------------------------------------
  // Selecting a function's body
  // ---------------------------------------------------------------------------------------

  /** The decoder's selection for one statement of a function being compiled. */
  function SelectStmt(s: Stmt): Outcome
  {
    if s.Move? then SelectMove(s.target, s.source, s.swap, true).outcome else SelectExp(s.expr)
  }

  /** Selecting a function's statements in order: the hooks of them all, or the first fatal
      selection, which ends compilation. */
  function SelectBody(stmts: seq<Stmt>): (r: Outcome)
    ensures !r.Unimplemented?
    decreases |stmts|
  {
    if stmts == [] then Emitted([])
    else
      var before := SelectBody(stmts[..|stmts| - 1]);
      var last := SelectStmt(stmts[|stmts| - 1]);
      if before.Fatal? then before
      else if last.Fatal? then last
      else Emitted(before.ops + last.Ops())
  }

  /** The hooks of a run of selections, first to last. */
  function ConcatOps(outcomes: seq<Outcome>): seq<Op>
    decreases |outcomes|
  {
    if outcomes == [] then [] else outcomes[0].Ops() + ConcatOps(outcomes[1..])
  }

  lemma {:induction false} ConcatOpsSnoc(outcomes: seq<Outcome>, o: Outcome)
    ensures ConcatOps(outcomes + [o]) == ConcatOps(outcomes) + o.Ops()
    decreases |outcomes|
  {
    if outcomes == [] {
      assert [o][1..] == [];
      assert outcomes + [o] == [o];
    } else {
      var longer := outcomes + [o];
      assert longer[0] == outcomes[0] && longer[1..] == outcomes[1..] + [o];
      ConcatOpsSnoc(outcomes[1..], o);
      assert ConcatOps(longer) == outcomes[0].Ops() + (ConcatOps(outcomes[1..]) + o.Ops());
    }
  }

  /** What selection makes of each statement on its own. */
  function StmtSelections(stmts: seq<Stmt>): (r: seq<Outcome>)
    ensures |r| == |stmts| && forall i :: 0 <= i < |stmts| ==> r[i] == SelectStmt(stmts[i])
  {
    seq(|stmts|, i requires 0 <= i < |stmts| => SelectStmt(stmts[i]))
  }

  /** The hooks of all statements, first to last: the reference for SelectBody. */
  function AllOps(stmts: seq<Stmt>): seq<Op>
  {
    ConcatOps(StmtSelections(stmts))
  }

  lemma AllOpsSnoc(stmts: seq<Stmt>, s: Stmt)
    ensures AllOps(stmts + [s]) == AllOps(stmts) + SelectStmt(s).Ops()
  {
    assert StmtSelections(stmts + [s]) == StmtSelections(stmts) + [SelectStmt(s)];
    ConcatOpsSnoc(StmtSelections(stmts), SelectStmt(s));
  }

  /** A body is fatal exactly when one of its statements is; otherwise it emits the hooks of
      all of them in order. */
  lemma {:induction false} SelectBodyWithoutFatal(stmts: seq<Stmt>)
    ensures !SelectBody(stmts).Fatal? <==> forall k :: 0 <= k < |stmts| ==> !SelectStmt(stmts[k]).Fatal?
    ensures !SelectBody(stmts).Fatal? ==> SelectBody(stmts) == Emitted(AllOps(stmts))
    decreases |stmts|
  {
    if stmts != [] {
      var n := |stmts| - 1;
      var init := stmts[..n];
      assert stmts == init + [stmts[n]];
      SelectBodyWithoutFatal(init);
      AllOpsSnoc(init, stmts[n]);
      assert forall k :: 0 <= k < n ==> stmts[k] == init[k];
    }
  }

  /** A fatal body carries the fault of its first fatal statement. */
  lemma {:induction false} SelectBodyFatalAt(stmts: seq<Stmt>)
    ensures SelectBody(stmts).Fatal? ==>
              exists k :: 0 <= k < |stmts| && SelectStmt(stmts[k]) == SelectBody(stmts) &&
                          forall j :: 0 <= j < k ==> !SelectStmt(stmts[j]).Fatal?
    decreases |stmts|
  {
    if stmts != [] {
      var n := |stmts| - 1;
      var init := stmts[..n];
      assert stmts == init + [stmts[n]];
      SelectBodyFatalAt(init);
      if SelectBody(init).Fatal? {
        var k :| 0 <= k < |init| && SelectStmt(init[k]) == SelectBody(init) &&
                 forall j :: 0 <= j < k ==> !SelectStmt(init[j]).Fatal?;
        assert stmts[k] == init[k];
        assert forall j :: 0 <= j < k ==> stmts[j] == init[j];
      } else if SelectStmt(stmts[n]).Fatal? {
        SelectBodyWithoutFatal(init);
        assert forall j :: 0 <= j < n ==> stmts[j] == init[j];
      }
    }
  }

  /**
   * A body without a fatal statement emits the hooks of all its statements in order; a body
   * with one stops at the first, with that statement's fault.
   */
  lemma SelectBodyIsFirstFatal(stmts: seq<Stmt>)
    ensures (forall k :: 0 <= k < |stmts| ==> !SelectStmt(stmts[k]).Fatal?) ==>
              SelectBody(stmts) == Emitted(AllOps(stmts))
    ensures SelectBody(stmts).Fatal? <==> exists k :: 0 <= k < |stmts| && SelectStmt(stmts[k]).Fatal?
    ensures SelectBody(stmts).Fatal? ==>
              exists k :: 0 <= k < |stmts| && SelectStmt(stmts[k]) == SelectBody(stmts) &&
                          forall j :: 0 <= j < k ==> !SelectStmt(stmts[j]).Fatal?
  {
    SelectBodyWithoutFatal(stmts);
    SelectBodyFatalAt(stmts);
  }


  /** Once a prefix of the body is fatal, the whole body is, with the same fault. */
  lemma {:induction false} FatalPrefix(stmts: seq<Stmt>, i: nat)
    requires i <= |stmts| && SelectBody(stmts[..i]).Fatal?
    ensures SelectBody(stmts) == SelectBody(stmts[..i])
    decreases |stmts| - i
  {
    if i < |stmts| {
      assert stmts[..i + 1][..i] == stmts[..i];
      FatalPrefix(stmts, i + 1);
    } else {
      assert stmts[..i] == stmts;
    }
  }

  /** One more statement selected after a prefix that was not fatal. */
  lemma BodyStep(stmts: seq<Stmt>, i: nat)
    requires i < |stmts|
    ensures var before := SelectBody(stmts[..i]);
            var last := SelectStmt(stmts[i]);
            SelectBody(stmts[..i + 1]) ==
            if before.Fatal? then before else if last.Fatal? then last else Emitted(before.ops + last.Ops())
  {
    assert stmts[..i + 1][..i] == stmts[..i];
  }

  /** The dependency one statement records on the function being compiled. */
  function StmtDependency(s: Stmt): Option<Dependency>
  {
    if s.Move? then SelectMove(s.target, s.source, s.swap, true).dependency else None
  }

  /** The dependency maps after run visits `stmts` starting from `deps`: each statement's
      dependency inserted in order, up to and including the first fatal statement. */
  function Recorded(deps: DependencyMaps, stmts: seq<Stmt>): DependencyMaps
    decreases |stmts|
  {
    if stmts == [] then deps
    else
      var next := InsertDependency(deps, StmtDependency(stmts[0]));
      if SelectStmt(stmts[0]).Fatal? then next else Recorded(next, stmts[1..])
  }

  lemma RecordedStep(deps: DependencyMaps, stmts: seq<Stmt>, i: nat)
    requires i < |stmts|
    ensures var next := InsertDependency(deps, StmtDependency(stmts[i]));
            Recorded(deps, stmts[i..]) == if SelectStmt(stmts[i]).Fatal? then next else Recorded(next, stmts[i + 1..])
  {
    assert stmts[i..][0] == stmts[i] && stmts[i..][1..] == stmts[i + 1..];
  }

  /** A body that reads no property of the QML context or scope object leaves both maps as
      they were. */
  lemma {:induction false} RecordedWithoutReads(deps: DependencyMaps, stmts: seq<Stmt>)
    requires forall i :: 0 <= i < |stmts| ==> StmtDependency(stmts[i]).None?
    ensures Recorded(deps, stmts) == deps
    decreases |stmts|
  {
    if stmts != [] {
      assert forall i :: 0 <= i < |stmts[1..]| ==> stmts[1..][i] == stmts[i + 1];
      RecordedWithoutReads(deps, stmts[1..]);
    }
  }

  /** No entry of either map is ever lost. */
  lemma {:induction false} RecordedKeepsEntries(deps: DependencyMaps, stmts: seq<Stmt>)
    ensures var r := Recorded(deps, stmts);
            deps.context.Keys <= r.context.Keys && deps.scope.Keys <= r.scope.Keys
    decreases |stmts|
  {
    if stmts != [] {
      var next := InsertDependency(deps, StmtDependency(stmts[0]));
      if StmtDependency(stmts[0]).Some? {
        InsertDependencyRecords(deps, StmtDependency(stmts[0]).value);
      }
      if !SelectStmt(stmts[0]).Fatal? {
        RecordedKeepsEntries(next, stmts[1..]);
      }
    }
  }

  /** A property read by a statement that run reaches (no earlier statement is fatal) is in
      the map of its kind once run is done. */
  lemma {:induction false} RecordedHasRead(deps: DependencyMaps, stmts: seq<Stmt>, i: nat)
    requires i < |stmts| && StmtDependency(stmts[i]).Some?
    requires forall j :: 0 <= j < i ==> !SelectStmt(stmts[j]).Fatal?
    ensures var d := StmtDependency(stmts[i]).value;
            d.coreIndex in MapFor(Recorded(deps, stmts), d)
    decreases i
  {
    var next := InsertDependency(deps, StmtDependency(stmts[0]));
    if i == 0 {
      InsertDependencyRecords(deps, StmtDependency(stmts[0]).value);
      if !SelectStmt(stmts[0]).Fatal? {
        RecordedKeepsEntries(next, stmts[1..]);
      }
    } else {
      assert !SelectStmt(stmts[0]).Fatal?;
      assert stmts[1..][i - 1] == stmts[i];
      assert forall j :: 0 <= j < i - 1 ==> stmts[1..][j] == stmts[j + 1];
      RecordedHasRead(next, stmts[1..], i - 1);
    }
  }

  /** run(i): a decoder with the function current visits its statements in order. A fatal
      selection ends compilation there. */
  method Run(f: Function) returns (r: Outcome)
    modifies f
    ensures r == SelectBody(f.statements)
    ensures f.Dependencies() == Recorded(old(f.Dependencies()), f.statements)
  {
    var d := new IRDecoder(f);
    assert f.statements[..0] == [] && f.statements[0..] == f.statements;
    var i := 0;
    while i < |f.statements|
      invariant 0 <= i <= |f.statements| && d.current == f
      invariant SelectBody(f.statements[..i]) == Emitted(d.emitted)
      invariant Recorded(f.Dependencies(), f.statements[i..]) == Recorded(old(f.Dependencies()), f.statements)
    {
      BodyStep(f.statements, i);
      RecordedStep(f.Dependencies(), f.statements, i);
      var o := d.Visit(f.statements[i]);
      if o.Fatal? {
        FatalPrefix(f.statements, i + 1);
        return o;
      }
      i := i + 1;
    }
    assert f.statements[..i] == f.statements && f.statements[i..] == [];
    r := Emitted(d.emitted);
  }

  // ---------------------------------------------------------------------------------------
  // runAll
  // ---------------------------------------------------------------------------------------

  /** What the backend and the JS unit generator produce, whose work is not modelled: the
      compiled code of each function, in order, and the unit data. */
  datatype Backend = Backend(compiled: seq<CompiledCode>, generatedUnit: Bytes)

  /** A function's code in a compilation unit: selected and compiled now, or loaded from the
      cache. */
  datatype FunctionCode =
    | Generated(ops: seq<Op>, code: CompiledCode)
    | Loaded(fn: RestoredFunction)

  /** Instruction selection over every function of the module. */
  datatype Generation =
    | AllGenerated(code: seq<FunctionCode>)
    | GenerationAborted(fault: Fault)

  /** The compilation unit handed back to the engine. */
  class CompilationUnit {
    const code: seq<FunctionCode>
    var data: Option<Bytes>
    var isRestored: bool

    constructor (code: seq<FunctionCode>)
      ensures this.code == code && data == None && !isRestored
    {
      this.code := code;
      data := None;
      isRestored := false;
    }
  }

  datatype Compilation =
    | Compiled(unit: CompilationUnit)
    | Aborted(fault: Fault)  // qFatal: the process ends
    | Undefined              // the source reads memory it never wrote

  /** The statements of every function of the module, in order. */
  function Bodies(functions: seq<Function>): (r: seq<seq<Stmt>>)
    ensures |r| == |functions| && forall i :: 0 <= i < |functions| ==> r[i] == functions[i].statements
  {
    seq(|functions|, i requires 0 <= i < |functions| => functions[i].statements)
  }

  /** What instruction selection makes of each body, in order. */
  function Selections(bodies: seq<seq<Stmt>>): (r: seq<Outcome>)
    ensures |r| == |bodies| && forall i :: 0 <= i < |bodies| ==> r[i] == SelectBody(bodies[i])
  {
    seq(|bodies|, i requires 0 <= i < |bodies| => SelectBody(bodies[i]))
  }

  /** run(0) .. run(n-1) in order, given what selection makes of each function, each paired
      with its compiled code; the first fatal selection ends it. */
  function GenerateAll(selections: seq<Outcome>, compiled: seq<CompiledCode>): Generation
    requires |selections| == |compiled|
    decreases |selections|
  {
    if selections == [] then AllGenerated([])
    else
      var n := |selections| - 1;
      var last := selections[n];
      match GenerateAll(selections[..n], compiled[..n])
      case GenerationAborted(f) => GenerationAborted(f)
      case AllGenerated(code) =>
        if last.Fatal? then GenerationAborted(last.fault)
        else AllGenerated(code + [Generated(last.Ops(), compiled[n])])
  }

  /** A module that generated did so for every function, in order: function i's code is its
      selected hooks with its compiled code, and none of them was fatal. */
  lemma {:induction false} GeneratedCode(selections: seq<Outcome>, compiled: seq<CompiledCode>)
    requires |selections| == |compiled| && GenerateAll(selections, compiled).AllGenerated?
    ensures var code := GenerateAll(selections, compiled).code;
            |code| == |selections| &&
            forall i :: 0 <= i < |selections| ==>
              !selections[i].Fatal? && code[i] == Generated(selections[i].Ops(), compiled[i])
    decreases |selections|
  {
    if selections != [] {
      var n := |selections| - 1;
      GeneratedCode(selections[..n], compiled[..n]);
      var code := GenerateAll(selections, compiled).code;
      var prev := GenerateAll(selections[..n], compiled[..n]).code;
      forall i | 0 <= i < |selections|
        ensures !selections[i].Fatal? && code[i] == Generated(selections[i].Ops(), compiled[i])
      {
        if i < n {
          assert code[i] == prev[i];
          assert selections[..n][i] == selections[i] && compiled[..n][i] == compiled[i];
        }
      }
    }
  }

  /** A module none of whose functions is fatal generates. */
  lemma {:induction false} NoFatalGenerates(selections: seq<Outcome>, compiled: seq<CompiledCode>)
    requires |selections| == |compiled|
    requires forall i :: 0 <= i < |selections| ==> !selections[i].Fatal?
    ensures GenerateAll(selections, compiled).AllGenerated?
    decreases |selections|
  {
    if selections != [] {
      var n := |selections| - 1;
      forall i | 0 <= i < n
        ensures !selections[..n][i].Fatal?
      {
        assert selections[..n][i] == selections[i];
      }
      NoFatalGenerates(selections[..n], compiled[..n]);
    }
  }

  /** Every function is selected, in order, exactly when none of them is fatal. */
  lemma GenerateAllInOrder(selections: seq<Outcome>, compiled: seq<CompiledCode>)
    requires |selections| == |compiled|
    ensures GenerateAll(selections, compiled).AllGenerated? <==>
              forall i :: 0 <= i < |selections| ==> !selections[i].Fatal?
    ensures GenerateAll(selections, compiled).AllGenerated? ==>
              var code := GenerateAll(selections, compiled).code;
              |code| == |selections| &&
              forall i :: 0 <= i < |selections| ==> code[i] == Generated(selections[i].Ops(), compiled[i])
  {
    if GenerateAll(selections, compiled).AllGenerated? {
      GeneratedCode(selections, compiled);
    } else if forall i :: 0 <= i < |selections| ==> !selections[i].Fatal? {
      NoFatalGenerates(selections, compiled);
    }
  }

  /** An aborted module carries the fault of its first fatal function. */
  lemma {:induction false} GenerateAllStopsAtFirstFatal(selections: seq<Outcome>, compiled: seq<CompiledCode>)
    requires |selections| == |compiled|
    ensures GenerateAll(selections, compiled).GenerationAborted? ==>
              exists k :: 0 <= k < |selections| && selections[k] == Fatal(GenerateAll(selections, compiled).fault) &&
                          forall j :: 0 <= j < k ==> !selections[j].Fatal?
    decreases |selections|
  {
    if selections != [] {
      var n := |selections| - 1;
      GenerateAllStopsAtFirstFatal(selections[..n], compiled[..n]);
      var prev := GenerateAll(selections[..n], compiled[..n]);
      if prev.GenerationAborted? {
        var k :| 0 <= k < n && selections[..n][k] == Fatal(prev.fault) &&
                 forall j :: 0 <= j < k ==> !selections[..n][j].Fatal?;
        assert selections[k] == selections[..n][k];
        assert forall j :: 0 <= j < k ==> selections[j] == selections[..n][j];
      } else if selections[n].Fatal? {
        GeneratedCode(selections[..n], compiled[..n]);
        assert forall j :: 0 <= j < n ==> selections[j] == selections[..n][j];
      }
    }
  }

  /** Once the functions before `i` have aborted, the whole module has, with that fault. */
  lemma {:induction false} AbortedPrefix(selections: seq<Outcome>, compiled: seq<CompiledCode>, i: nat)
    requires |selections| == |compiled| && i <= |selections|
    requires GenerateAll(selections[..i], compiled[..i]).GenerationAborted?
    ensures GenerateAll(selections, compiled) == GenerateAll(selections[..i], compiled[..i])
    decreases |selections| - i
  {
    if i < |selections| {
      assert selections[..i + 1][..i] == selections[..i] && compiled[..i + 1][..i] == compiled[..i];
      AbortedPrefix(selections, compiled, i + 1);
    } else {
      assert selections[..i] == selections && compiled[..i] == compiled;
    }
  }

  lemma GenerateStep(selections: seq<Outcome>, compiled: seq<CompiledCode>, i: nat)
    requires |selections| == |compiled| && i < |selections|
    ensures var last := selections[i];
            GenerateAll(selections[..i + 1], compiled[..i + 1]) ==
            match GenerateAll(selections[..i], compiled[..i])
            case GenerationAborted(f) => GenerationAborted(f)
            case AllGenerated(code) =>
              if last.Fatal? then GenerationAborted(last.fault)
              else AllGenerated(code + [Generated(last.Ops(), compiled[i])])
  {
    assert selections[..i + 1][..i] == selections[..i] && compiled[..i + 1][..i] == compiled[..i];
  }

  /** What a compile produces, as a value. */
  datatype UnitValue = UnitValue(code: seq<FunctionCode>, data: Option<Bytes>, isRestored: bool)

  datatype CompileOutcome =
    | Built(unit: UnitValue)
    | BuildAborted(fault: Fault)
    | BuildUndefined

  /** The unit `r` holds is the one `o` describes. */
  predicate Describes(r: Compilation, o: CompileOutcome)
    reads if r.Compiled? then {r.unit} else {}
  {
    match o
    case Built(u) => r.Compiled? && r.unit.code == u.code && r.unit.data == u.data && r.unit.isRestored == u.isRestored
    case BuildAborted(f) => r == Aborted(f)
    case BuildUndefined => r == Undefined
  }

  /** runAll(generateUnitData): a fresh unit, not restored, carrying unit data only when asked. */
  function RanAll(g: Generation, backend: Backend, generateUnitData: bool): CompileOutcome
  {
    match g
    case GenerationAborted(f) => BuildAborted(f)
    case AllGenerated(code) =>
      Built(UnitValue(code, if generateUnitData then Some(backend.generatedUnit) else None, false))
  }

  /** The module's functions are distinct objects: the IR module allocates each once. */
  predicate Distinct(functions: seq<Function>)
  {
    forall i, j :: 0 <= i < j < |functions| ==> functions[i] != functions[j]
  }

  /** The dependency maps of every function, in order. */
  function DependenciesOf(functions: seq<Function>): (r: seq<DependencyMaps>)
    reads functions
    ensures |r| == |functions| && forall j :: 0 <= j < |functions| ==> r[j] == functions[j].Dependencies()
  {
    seq(|functions|, j reads functions requires 0 <= j < |functions| => functions[j].Dependencies())
  }

  /** Whether runAll reaches run(j): no function before it is fatal. */
  predicate Reached(selections: seq<Outcome>, j: nat)
  {
    forall k :: 0 <= k < j && k < |selections| ==> !selections[k].Fatal?
  }

  /** The dependency maps after runAll, when it runs: every function it reaches has its
      body's dependencies recorded, the others keep theirs. When runAll does not run (the
      unit is restored, or compile() stops first), nothing changes. */
  function AfterRunAll(before: seq<DependencyMaps>, bodies: seq<seq<Stmt>>, ran: bool): (r: seq<DependencyMaps>)
    requires |before| == |bodies|
  {
    if !ran then before
    else seq(|bodies|, j requires 0 <= j < |bodies| =>
               if Reached(Selections(bodies), j) then Recorded(before[j], bodies[j]) else before[j])
  }

  /** A prefix of functions that generated has no fatal function. */
  lemma ReachedByGeneration(selections: seq<Outcome>, compiled: seq<CompiledCode>, i: nat)
    requires |selections| == |compiled| && i <= |selections|
    requires GenerateAll(selections[..i], compiled[..i]).AllGenerated?
    ensures Reached(selections, i)
  {
    GeneratedCode(selections[..i], compiled[..i]);
    assert forall k :: 0 <= k < i ==> selections[..i][k] == selections[k];
  }

  /** The maps after runAll when run(0) .. run(n-1) are the calls it makes. */
  lemma RanUpTo(before: seq<DependencyMaps>, bodies: seq<seq<Stmt>>, n: nat)
    requires |before| == |bodies| && n <= |bodies|
    requires n > 0 ==> Reached(Selections(bodies), n - 1)
    requires n < |bodies| ==> n > 0 && Selections(bodies)[n - 1].Fatal?
    ensures AfterRunAll(before, bodies, true) == RecordedPrefix(before, bodies, n)
  {
  }

  /** run(i) on one of the module's functions: only that function's maps change. */
  method RunAt(functions: seq<Function>, i: nat) returns (o: Outcome)
    requires i < |functions| && Distinct(functions)
    modifies functions[i]
    ensures o == SelectBody(functions[i].statements)
    ensures DependenciesOf(functions) ==
            old(DependenciesOf(functions))[i := Recorded(old(functions[i].Dependencies()), functions[i].statements)]
  {
    o := Run(functions[i]);
  }

  /** The maps after run(0) .. run(n-1): those functions' bodies recorded, the rest as before. */
  function RecordedPrefix(before: seq<DependencyMaps>, bodies: seq<seq<Stmt>>, n: nat): (r: seq<DependencyMaps>)
    requires |before| == |bodies|
    ensures |r| == |bodies|
  {
    seq(|bodies|, j requires 0 <= j < |bodies| => if j < n then Recorded(before[j], bodies[j]) else before[j])
  }

  /** One more function's body recorded. */
  lemma RecordedPrefixStep(before: seq<DependencyMaps>, bodies: seq<seq<Stmt>>, i: nat)
    requires |before| == |bodies| && i < |bodies|
    ensures RecordedPrefix(before, bodies, i)[i := Recorded(before[i], bodies[i])] == RecordedPrefix(before, bodies, i + 1)
  {
  }

  /** One more function selected and paired with its compiled code. */
  method RunNext(functions: seq<Function>, backend: Backend, i: nat, code: seq<FunctionCode>) returns (r: Generation)
    requires |backend.compiled| == |functions| && i < |functions|
    requires GenerateAll(Selections(Bodies(functions))[..i], backend.compiled[..i]) == AllGenerated(code)
    requires Distinct(functions)
    modifies functions[i]
    ensures r == GenerateAll(Selections(Bodies(functions))[..i + 1], backend.compiled[..i + 1])
    ensures DependenciesOf(functions) ==
            old(DependenciesOf(functions))[i := Recorded(old(functions[i].Dependencies()), functions[i].statements)]
  {
    GenerateStep(Selections(Bodies(functions)), backend.compiled, i);
    var o := RunAt(functions, i);
    if o.Fatal? {
      return GenerationAborted(o.fault);
    }
    r := AllGenerated(code + [Generated(o.Ops(), backend.compiled[i])]);
  }

  /** EvalInstructionSelection::runAll. */
  method RunAll(functions: seq<Function>, backend: Backend, generateUnitData: bool) returns (r: Compilation)
    requires |backend.compiled| == |functions| && Distinct(functions)
    modifies functions
    ensures Describes(r, RanAll(GenerateAll(Selections(Bodies(functions)), backend.compiled), backend, generateUnitData))
    ensures DependenciesOf(functions) == AfterRunAll(old(DependenciesOf(functions)), Bodies(functions), true)
    ensures r.Compiled? ==> fresh(r.unit)
  {
    ghost var selections := Selections(Bodies(functions));
    ghost var before := DependenciesOf(functions);
    var code: seq<FunctionCode> := [];
    var i := 0;
    while i < |functions|
      invariant 0 <= i <= |functions|
      invariant GenerateAll(selections[..i], backend.compiled[..i]) == AllGenerated(code)
      invariant DependenciesOf(functions) == RecordedPrefix(before, Bodies(functions), i)
    {
      RecordedPrefixStep(before, Bodies(functions), i);
      var g := RunNext(functions, backend, i, code);
      if g.GenerationAborted? {
        AbortedPrefix(selections, backend.compiled, i + 1);
        ReachedByGeneration(selections, backend.compiled, i);
        GenerateStep(selections, backend.compiled, i);
        assert selections[i].Fatal?;
        RanUpTo(before, Bodies(functions), i + 1);
        return Aborted(g.fault);
      }
      code := g.code;
      i := i + 1;
    }
    assert selections[..i] == selections && backend.compiled[..i] == backend.compiled;
    ReachedByGeneration(selections, backend.compiled, i);
    RanUpTo(before, Bodies(functions), i);
    var unit := new CompilationUnit(code);  // backendCompileStep()
    unit.isRestored := false;
    if generateUnitData {
      unit.data := Some(backend.generatedUnit);
    }
    r := Compiled(unit);
  }

  // ---------------------------------------------------------------------------------------
  // compile
  // ---------------------------------------------------------------------------------------

  /**
   * The host services the cache uses: MD5 as hex digits, ctime(), $APP_ID, the source files on
   * disk (path to st_mtime), the cache directory's listing, and the six bytes that follow the
   * file name's terminating NUL in memory (the header writes them; see EncodeHeader).
   */
  datatype Host = Host(md5hex: Bytes -> Bytes, ctimeText: int -> Bytes, appId: Bytes,
                       sources: map<Bytes, int>, listing: seq<Bytes>, beyond: Bytes)

  /** QString::toLatin1: a character beyond Latin-1 becomes '?'. */
  function Latin1(s: string): (r: Bytes)
    ensures |r| == |s|
    ensures forall i :: 0 <= i < |s| && s[i] as int < 256 ==> r[i] as int == s[i] as int
  {
    seq(|s|, i requires 0 <= i < |s| => if s[i] as int < 256 then s[i] as int as byte else '?' as int as byte)
  }

  const FileScheme: Bytes := Latin1("file://")
  const Inline: Bytes := Latin1("inline")

  /** The identity of every function: its name in Latin-1, its line and its column. */
  function Identities(functions: seq<Function>): (r: seq<FunctionIdentity>)
    ensures |r| == |functions|
  {
    seq(|functions|, i requires 0 <= i < |functions| =>
      FunctionIdentity(Latin1(functions[i].name), functions[i].line, functions[i].column))
  }

  /** The cache file's name: the MD5 of the file name, $APP_ID and the source's ctime() text. */
  function CacheFileName(host: Host, url: Bytes, mtime: int): Bytes
  {
    host.md5hex(url + host.appId + host.ctimeText(mtime))
  }

  /** A module whose unit may be restored from and saved to the cache: a file name that is not
      empty and does not contain "inline", compiled for an engine. */
  predicate Eligible(url: Bytes, hasEngine: bool)
  {
    |url| > 0 && !Contains(url, Inline) && hasEngine
  }

  /** The file the save path writes for a module. */
  function SavedFile(url: Bytes, mtime: int, fs: seq<FunctionIdentity>, host: Host, backend: Backend): Bytes
    requires |url| >= 7 && |host.beyond| == 6 && |fs| == |backend.compiled|
  {
    EncodeFile(EncodePayload(url, mtime, host.beyond, fs, backend.compiled, backend.generatedUnit), host.md5hex)
  }

  function LoadedAll(fns: seq<RestoredFunction>): (r: seq<FunctionCode>)
    ensures |r| == |fns| && forall i :: 0 <= i < |fns| ==> r[i] == Loaded(fns[i])
  {
    seq(|fns|, i requires 0 <= i < |fns| => Loaded(fns[i]))
  }

  /** What compile() builds from a cache file that passed the integrity check. */
  function Reload(load: LoadResult, g: Generation, backend: Backend, generateUnitData: bool): CompileOutcome
  {
    match load
    case IdentityMismatch(_) => RanAll(g, backend, generateUnitData)
    case LoadUndefined => BuildUndefined
    case Restored(fns, unit) =>
      Built(UnitValue(LoadedAll(fns), if unit.Some? then unit else Some(backend.generatedUnit), true))
  }

  /** Whether the path that produced `o` ran runAll: a unit compiled now, or an abort while
      compiling. A restored unit and an undefined outcome never select a statement. */
  predicate RanRunAll(o: CompileOutcome)
  {
    o.BuildAborted? || (o.Built? && !o.unit.isRestored)
  }

  /** What a compile builds and the cache directory it leaves. */
  datatype StepResult = StepResult(outcome: CompileOutcome, files: map<Bytes, Bytes>)

  /**
   * compile() after the directory check: look for the module's cache file, test its
   * integrity (removing it when that fails), restore from it, or else run everything and
   * save. `hasEngine`: the module is compiled for an engine.
   */
  function CacheStep(url: Bytes, fs: seq<FunctionIdentity>, hasEngine: bool, files: map<Bytes, Bytes>,
                     host: Host, g: Generation, backend: Backend, generateUnitData: bool): StepResult
    requires |url| >= 7 && |host.beyond| == 6 && |fs| == |backend.compiled|
  {
    var path := url[7..];
    if path !in host.sources then StepResult(BuildUndefined, files)
    else
      var mtime := host.sources[path];
      if CacheFileName(host, url, mtime) in files && !Eligible(url, hasEngine) then
        StepResult(RanAll(g, backend, generateUnitData), files)
      else LookupStep(url, mtime, fs, hasEngine, files, host, g, backend, generateUnitData)
  }

  /** The integrity check on the cache file, then the restore from an intact file, or else
      runAll and the save; a file that fails the check is removed first (for an absent file,
      which reads as empty, the removal changes nothing). */
  function LookupStep(url: Bytes, mtime: int, fs: seq<FunctionIdentity>, hasEngine: bool,
                      files: map<Bytes, Bytes>, host: Host, g: Generation, backend: Backend,
                      generateUnitData: bool): StepResult
    requires |url| >= 7 && |host.beyond| == 6 && |fs| == |backend.compiled|
  {
    var name := CacheFileName(host, url, mtime);
    if name in files && IntegrityHolds(files[name], host.md5hex) then
      StepResult(Reload(ParseCache(files[name], fs), g, backend, generateUnitData), files)
    else SaveStep(url, mtime, fs, hasEngine, files - {name}, host, g, backend)
  }

  /** runAll(false), unit data generated, then the save: the module's file when it is eligible,
      an empty file when it is not. */
  function SaveStep(url: Bytes, mtime: int, fs: seq<FunctionIdentity>, hasEngine: bool,
                    files: map<Bytes, Bytes>, host: Host, g: Generation, backend: Backend): StepResult
    requires |url| >= 7 && |host.beyond| == 6 && |fs| == |backend.compiled|
  {
    match g
    case GenerationAborted(f) => StepResult(BuildAborted(f), files)
    case AllGenerated(code) =>
      StepResult(Built(UnitValue(code, Some(backend.generatedUnit), false)),
                 files[CacheFileName(host, url, mtime) :=
                       if Eligible(url, hasEngine) then SavedFile(url, mtime, fs, host, backend) else []])
  }

  /** The save path always runs runAll. */
  lemma SaveStepRunsAll(url: Bytes, mtime: int, fs: seq<FunctionIdentity>, hasEngine: bool,
                        files: map<Bytes, Bytes>, host: Host, g: Generation, backend: Backend)
    requires |url| >= 7 && |host.beyond| == 6 && |fs| == |backend.compiled|
    ensures RanRunAll(SaveStep(url, mtime, fs, hasEngine, files, host, g, backend).outcome)
  {
  }

  /** The engine's cache state (None without an engine), the outcome and the directory. */
  datatype CompileEffect = CompileEffect(state: Option<CacheState>, outcome: CompileOutcome, files: map<Bytes, Bytes>)

  /** compile(): runAll when the cache is off or there is no JIT backend; otherwise the
      directory check while the engine's state is UNTESTED, then CacheStep. */
  function CompileSpec(doCache: bool, hasBackend: bool, url: Bytes, fs: seq<FunctionIdentity>, state: Option<CacheState>,
                       files: map<Bytes, Bytes>, host: Host, g: Generation, backend: Backend,
                       generateUnitData: bool): CompileEffect
    requires doCache ==> |url| >= 7
    requires |host.beyond| == 6 && |fs| == |backend.compiled|
  {
    if !doCache || !hasBackend then CompileEffect(state, RanAll(g, backend, generateUnitData), files)
    else if state == Some(Untested) then
      match GateOutcome(host.listing, files, host.sources)
      case None => CompileEffect(state, BuildUndefined, files)
      case Some((checked, left)) =>
        var step := CacheStep(url, fs, true, left, host, g, backend, generateUnitData);
        CompileEffect(Some(checked), step.outcome, step.files)
    else
      var step := CacheStep(url, fs, state.Some?, files, host, g, backend, generateUnitData);
      CompileEffect(state, step.outcome, step.files)
  }

  /** The Qt containers' int sizes: every block the save path writes fits. */
  predicate WithinIntSizes(url: Bytes, fs: seq<FunctionIdentity>, backend: Backend)
  {
    |url| <= INT_MAX && |fs| == |backend.compiled| && |backend.generatedUnit| <= INT_MAX &&
    forall i :: 0 <= i < |fs| ==> |SaveIdentity(fs[i])| < INT_MAX && Writable(backend.compiled[i])
  }

  // ---------------------------------------------------------------------------------------
  // What the cache promises
  // ---------------------------------------------------------------------------------------

  /** MD5 as hex digits: always 32 characters. */
  ghost predicate HexDigests(host: Host)
  {
    forall b :: |host.md5hex(b)| == 32
  }

  /**
   * A module compiled with no cache file yet saves one; the next compile of the same module,
   * for the same source, finds that file intact, restores every function from it (its code,
   * its calls relinked through the table) with the saved unit data, and leaves the directory
   * as it was. Only the first runs runAll, so only the first records dependency maps.
   */
  lemma SaveThenLoad(url: Bytes, fs: seq<FunctionIdentity>, hasEngine: bool, files: map<Bytes, Bytes>, host: Host,
                     g: Generation, again: Generation, backend: Backend, generateUnitData: bool, generateAgain: bool)
    requires |host.beyond| == 6 && HexDigests(host) && Eligible(url, hasEngine)
    requires RoundTrips(url, fs, backend.compiled, backend.generatedUnit)
    requires url[7..] in host.sources && CacheFileName(host, url, host.sources[url[7..]]) !in files
    requires g.AllGenerated?
    ensures var first := CacheStep(url, fs, hasEngine, files, host, g, backend, generateUnitData);
            var second := CacheStep(url, fs, hasEngine, first.files, host, again, backend, generateAgain);
            first.outcome == Built(UnitValue(g.code, Some(backend.generatedUnit), false)) &&
            second.files == first.files &&
            second.outcome == Built(UnitValue(LoadedAll(RestoreAll(backend.compiled)), Some(backend.generatedUnit), true)) &&
            RanRunAll(first.outcome) && !RanRunAll(second.outcome)
  {
    var mtime := host.sources[url[7..]];
    var payload := EncodePayload(url, mtime, host.beyond, fs, backend.compiled, backend.generatedUnit);
    IntegrityOfShortFile([], host.md5hex);
    SavedFilePassesIntegrity(payload, host.md5hex);
    LoadAfterSave(url, mtime, host.beyond, fs, backend.compiled, backend.generatedUnit, host.md5hex(payload));
  }

  /**
   * The engine's state only gates the directory check: once the check has run, whichever way
   * it went (an INVALID state included), a compile still saves, and the next compile still
   * restores from the file saved.
   */
  lemma CacheStaysInUse(url: Bytes, fs: seq<FunctionIdentity>, state: CacheState, files: map<Bytes, Bytes>, host: Host,
                        g: Generation, again: Generation, backend: Backend, generateUnitData: bool, generateAgain: bool)
    requires state != Untested
    requires |host.beyond| == 6 && HexDigests(host) && Eligible(url, true)
    requires RoundTrips(url, fs, backend.compiled, backend.generatedUnit)
    requires url[7..] in host.sources && CacheFileName(host, url, host.sources[url[7..]]) !in files
    requires g.AllGenerated?
    ensures var first := CompileSpec(true, true, url, fs, Some(state), files, host, g, backend, generateUnitData);
            var second := CompileSpec(true, true, url, fs, first.state, first.files, host, again, backend, generateAgain);
            first.state == second.state == Some(state) && second.files == first.files &&
            second.outcome == Built(UnitValue(LoadedAll(RestoreAll(backend.compiled)), Some(backend.generatedUnit), true))
  {
    SaveThenLoad(url, fs, true, files, host, g, again, backend, generateUnitData, generateAgain);
  }

  /**
   * A module that is not eligible (a file name containing "inline", or no engine) is never
   * restored: an existing cache file is ignored and left alone, and when there is none the
   * save path leaves an empty file under the module's name.
   */
  lemma IneligibleNeverRestores(url: Bytes, fs: seq<FunctionIdentity>, hasEngine: bool, files: map<Bytes, Bytes>,
                                host: Host, g: Generation, backend: Backend, generateUnitData: bool)
    requires |url| >= 7 && |host.beyond| == 6 && |fs| == |backend.compiled|
    requires !Eligible(url, hasEngine) && url[7..] in host.sources
    ensures var name := CacheFileName(host, url, host.sources[url[7..]]);
            var step := CacheStep(url, fs, hasEngine, files, host, g, backend, generateUnitData);
            !(step.outcome.Built? && step.outcome.unit.isRestored) &&
            (name in files ==> step == StepResult(RanAll(g, backend, generateUnitData), files)) &&
            (name !in files && g.AllGenerated? ==> step.files == files[name := []])
  {
    IntegrityOfShortFile([], host.md5hex);
  }

  /**
   * An intact cache file whose stored identities do not match the module's functions is
   * ignored but kept: the module is compiled afresh and nothing is saved, so every later
   * compile of it does the same.
   */
  lemma MismatchKeepsFile(url: Bytes, fs: seq<FunctionIdentity>, hasEngine: bool, files: map<Bytes, Bytes>,
                          host: Host, g: Generation, backend: Backend, generateUnitData: bool)
    requires |url| >= 7 && |host.beyond| == 6 && |fs| == |backend.compiled|
    requires Eligible(url, hasEngine) && url[7..] in host.sources
    requires var name := CacheFileName(host, url, host.sources[url[7..]]);
             name in files && IntegrityHolds(files[name], host.md5hex) && ParseCache(files[name], fs).IdentityMismatch?
    ensures CacheStep(url, fs, hasEngine, files, host, g, backend, generateUnitData) ==
            StepResult(RanAll(g, backend, generateUnitData), files)
  {
  }

  /** A cache file that fails the integrity check is removed and replaced by a fresh save. */
  lemma CorruptFileReplaced(url: Bytes, fs: seq<FunctionIdentity>, hasEngine: bool, files: map<Bytes, Bytes>,
                            host: Host, g: Generation, backend: Backend, generateUnitData: bool)
    requires |url| >= 7 && |host.beyond| == 6 && |fs| == |backend.compiled|
    requires Eligible(url, hasEngine) && url[7..] in host.sources && g.AllGenerated?
    requires var name := CacheFileName(host, url, host.sources[url[7..]]);
             name in files && !IntegrityHolds(files[name], host.md5hex)
    ensures var mtime := host.sources[url[7..]];
            CacheStep(url, fs, hasEngine, files, host, g, backend, generateUnitData) ==
            StepResult(Built(UnitValue(g.code, Some(backend.generatedUnit), false)),
                       files[CacheFileName(host, url, mtime) := SavedFile(url, mtime, fs, host, backend)])
  {
    var mtime := host.sources[url[7..]];
    var name := CacheFileName(host, url, mtime);
    assert (files - {name})[name := SavedFile(url, mtime, fs, host, backend)] ==
           files[name := SavedFile(url, mtime, fs, host, backend)];
  }

  /**
   * The directory check's verdict on a file the save path wrote: kept while its source
   * exists with the same modification time (compared on the low 32 bits), stale once that
   * time changes, orphaned once the source is gone.
   */
  lemma SavedFileVerdict(url: Bytes, mtime: int, fs: seq<FunctionIdentity>, host: Host, backend: Backend,
                         files: map<Bytes, Bytes>, name: Bytes, sources: map<Bytes, int>)
    requires 7 <= |url| <= INT_MAX && |host.beyond| == 6 && |fs| == |backend.compiled| && 0 !in url[7..]
    requires name in files && files[name] == SavedFile(url, mtime, fs, host, backend)
    ensures FileVerdict(files, name, sources) ==
            if url[7..] !in sources then Orphaned
            else if ToU32(sources[url[7..]]) != ToU32(mtime) then Stale
            else Kept
  {
    var header := EncodeHeader(url, mtime, host.beyond);
    var rest := EncodeRecords(SavedIdentities(fs), backend.compiled) + EncodeUnit(backend.generatedUnit);
    var payload := EncodePayload(url, mtime, host.beyond, fs, backend.compiled, backend.generatedUnit);
    assert payload == header + rest;
    Regroup(header, rest, host.md5hex(payload));
    GateReadsSavedHeader(url, mtime, host.beyond, rest + host.md5hex(payload));
  }

  /** The instruction selector for one IR module. */
  class EvalInstructionSelection {
    const fileName: string
    const functions: seq<Function>
    const engine: Engine?
    const hasBackend: bool       // impl(): a JIT backend is present
    const cacheRequested: bool   // QV4_ENABLE_JIT_CACHE is set

    constructor (fileName: string, functions: seq<Function>, engine: Engine?, hasBackend: bool, cacheRequested: bool)
      ensures this.fileName == fileName && this.functions == functions && this.engine == engine
      ensures this.hasBackend == hasBackend && this.cacheRequested == cacheRequested
    {
      this.fileName := fileName;
      this.functions := functions;
      this.engine := engine;
      this.hasBackend := hasBackend;
      this.cacheRequested := cacheRequested;
    }

    /** The module's file name, in Latin-1. */
    const url: Bytes := Latin1(fileName)

    /** do_cache: the cache was asked for and the module is a file on disk. */
    const doCache: bool := cacheRequested && |url| >= 7 && url[..7] == FileScheme

    function EngineState(): Option<CacheState>
      reads engine
    {
      if engine == null then None else Some(engine.qmlCacheValid)
    }

    /** Restoring from an intact cache file, or falling back to runAll on a mismatch. */
    method LoadUnit(data: Bytes, backend: Backend, generateUnitData: bool) returns (r: Compilation)
      requires |backend.compiled| == |functions| && Distinct(functions)
      modifies functions
      ensures var o := Reload(ParseCache(data, Identities(functions)), GenerateAll(Selections(Bodies(functions)), backend.compiled),
                              backend, generateUnitData);
              Describes(r, o) &&
              DependenciesOf(functions) == AfterRunAll(old(DependenciesOf(functions)), Bodies(functions), RanRunAll(o))
      ensures r.Compiled? ==> fresh(r.unit)
    {
      var load := LoadCache(data, Identities(functions));
      r := Rebuild(load, backend, generateUnitData);
    }

    /** The unit rebuilt from what the loader read, or runAll on an identity mismatch. */
    method Rebuild(load: LoadResult, backend: Backend, generateUnitData: bool) returns (r: Compilation)
      requires |backend.compiled| == |functions| && Distinct(functions)
      requires load.Restored? ==> (load.unit.Some? <==> |functions| > 0)
      modifies functions
      ensures var o := Reload(load, GenerateAll(Selections(Bodies(functions)), backend.compiled), backend, generateUnitData);
              Describes(r, o) &&
              DependenciesOf(functions) == AfterRunAll(old(DependenciesOf(functions)), Bodies(functions), RanRunAll(o))
      ensures r.Compiled? ==> fresh(r.unit)
    {
      match load
      case IdentityMismatch(_) =>
        r := RunAll(functions, backend, generateUnitData);
      case LoadUndefined =>
        r := Undefined;
      case Restored(fns, unitData) =>
        var unit := new CompilationUnit(LoadedAll(fns));  // backendCompileStep()
        unit.data := None;
        if |functions| > 0 {
          unit.data := unitData;
        }
        unit.isRestored := true;
        if unit.data == None {
          unit.data := Some(backend.generatedUnit);
        }
        r := Compiled(unit);
    }

    /** compile() once the directory check is behind it. */
    method CompileWithCache(generateUnitData: bool, dir: CacheDirectory, host: Host, backend: Backend)
      returns (r: Compilation)
      requires doCache && |host.beyond| == 6 && |backend.compiled| == |functions| && Distinct(functions)
      requires WithinIntSizes(url, Identities(functions), backend)
      modifies functions, dir
      ensures var e := CacheStep(url, Identities(functions), engine != null, old(dir.files), host,
                                 GenerateAll(Selections(Bodies(functions)), backend.compiled), backend, generateUnitData);
              Describes(r, e.outcome) &&
              DependenciesOf(functions) == AfterRunAll(old(DependenciesOf(functions)), Bodies(functions), RanRunAll(e.outcome)) &&
              (!e.outcome.BuildUndefined? ==> dir.files == e.files)
      ensures r.Compiled? ==> fresh(r.unit)
    {
      var fs := Identities(functions);
      var path := url[7..];
      if path !in host.sources {
        return Undefined;  // ctime() of an st_mtime that stat() never wrote
      }
      var mtime := host.sources[path];
      if CacheFileName(host, url, mtime) in dir.files && !Eligible(url, engine != null) {
        r := RunAll(functions, backend, generateUnitData);
        return;
      }
      r := LookUp(mtime, dir, host, backend, generateUnitData);
    }

    /** The cache file read when it exists, its integrity tested, and the unit restored from it
        or compiled and saved. */
    method LookUp(mtime: int, dir: CacheDirectory, host: Host, backend: Backend, generateUnitData: bool)
      returns (r: Compilation)
      requires doCache && |host.beyond| == 6 && |backend.compiled| == |functions| && Distinct(functions)
      requires WithinIntSizes(url, Identities(functions), backend)
      requires CacheFileName(host, url, mtime) in dir.files ==> Eligible(url, engine != null)
      modifies functions, dir
      ensures var e := LookupStep(url, mtime, Identities(functions), engine != null, old(dir.files), host,
                                  GenerateAll(Selections(Bodies(functions)), backend.compiled), backend, generateUnitData);
              Describes(r, e.outcome) &&
              DependenciesOf(functions) == AfterRunAll(old(DependenciesOf(functions)), Bodies(functions), RanRunAll(e.outcome)) &&
              (!e.outcome.BuildUndefined? ==> dir.files == e.files)
      ensures r.Compiled? ==> fresh(r.unit)
    {
      ghost var files := dir.files;
      var loaded, fileData := OpenCacheFile(dir, CacheFileName(host, url, mtime), host.md5hex);
      if loaded {
        r := LoadUnit(fileData, backend, generateUnitData);
        assert LookupStep(url, mtime, Identities(functions), engine != null, files, host,
                          GenerateAll(Selections(Bodies(functions)), backend.compiled), backend, generateUnitData).outcome
            == Reload(ParseCache(fileData, Identities(functions)), GenerateAll(Selections(Bodies(functions)), backend.compiled),
                      backend, generateUnitData);
        return;
      }
      r := CompileAndSave(mtime, dir, host, backend);
    }

    /** The cache file's contents when it exists (empty otherwise), and whether it loads: it
        exists and passes the integrity check. A file that fails the check is removed. */
    static method OpenCacheFile(dir: CacheDirectory, name: Bytes, md5hex: Bytes -> Bytes) returns (loaded: bool, fileData: Bytes)
      modifies dir
      ensures fileData == if name in old(dir.files) then old(dir.files)[name] else []
      ensures loaded == (name in old(dir.files) && IntegrityHolds(fileData, md5hex))
      ensures dir.files == if loaded then old(dir.files) else old(dir.files) - {name}
    {
      loaded := false;
      fileData := [];
      if name in dir.files {
        loaded := true;
        fileData := dir.files[name];
      }
      if !IntegrityHolds(fileData, md5hex) {
        dir.files := dir.files - {name};
        loaded := false;
      }
    }

    /** The path that does not load: runAll(false), the unit data generated, the file saved. */
    method CompileAndSave(mtime: int, dir: CacheDirectory, host: Host, backend: Backend) returns (r: Compilation)
      requires doCache && |host.beyond| == 6 && |backend.compiled| == |functions| && Distinct(functions)
      requires WithinIntSizes(url, Identities(functions), backend)
      modifies functions, dir
      ensures var e := SaveStep(url, mtime, Identities(functions), engine != null, old(dir.files), host,
                                GenerateAll(Selections(Bodies(functions)), backend.compiled), backend);
              Describes(r, e.outcome) && dir.files == e.files &&
              DependenciesOf(functions) == AfterRunAll(old(DependenciesOf(functions)), Bodies(functions), RanRunAll(e.outcome))
      ensures r.Compiled? ==> fresh(r.unit)
    {
      var name := CacheFileName(host, url, mtime);
      r := RunAll(functions, backend, false);
      if r.Compiled? {
        if r.unit.data == None {
          r.unit.data := Some(backend.generatedUnit);
        }
        var file: Bytes := [];
        if Eligible(url, engine != null) {
          file := WriteCache(url, mtime, host.beyond, Identities(functions), backend.compiled, backend.generatedUnit, host.md5hex);
        }
        dir.files := dir.files[name := file];
      }
      SaveStepRunsAll(url, mtime, Identities(functions), engine != null, old(dir.files), host,
                      GenerateAll(Selections(Bodies(functions)), backend.compiled), backend);
    }

    /** EvalInstructionSelection::compile. */
    method Compile(generateUnitData: bool, dir: CacheDirectory, host: Host, backend: Backend) returns (r: Compilation)
      requires |host.beyond| == 6 && |backend.compiled| == |functions| && Distinct(functions)
      requires WithinIntSizes(url, Identities(functions), backend)
      modifies functions, dir, engine
      ensures var e := CompileSpec(doCache, hasBackend, url, Identities(functions), old(EngineState()), old(dir.files),
                                   host, GenerateAll(Selections(Bodies(functions)), backend.compiled), backend, generateUnitData);
              Describes(r, e.outcome) &&
              DependenciesOf(functions) == AfterRunAll(old(DependenciesOf(functions)), Bodies(functions), RanRunAll(e.outcome)) &&
              (!e.outcome.BuildUndefined? ==> dir.files == e.files && EngineState() == e.state)
      ensures r.Compiled? ==> fresh(r.unit)
    {
      if !doCache || !hasBackend {
        r := RunAll(functions, backend, generateUnitData);
        return;
      }
      ghost var deps := DependenciesOf(functions);
      if engine != null && engine.qmlCacheValid == Untested {
        var defined := CheckCacheDirectory(engine, dir, host.listing, host.sources);
        if !defined {
          return Undefined;
        }
      }
      assert DependenciesOf(functions) == deps;
      r := CompileWithCache(generateUnitData, dir, host, backend);
    }
  }
}
