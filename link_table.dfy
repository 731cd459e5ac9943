/**
 * The cached link table: a constant, ordered array of (name, address) pairs naming the
 * runtime routines that JIT-compiled code calls. A cache file records a call target by its
 * index in this table instead of by its address, and the loader turns the index back into
 * the routine's address and name in the running process.
 */
module CachedLinkData {
  import opened Options

  /** The address an entry stores: a routine of QV4::Runtime, or qt_noop for a placeholder. */
  datatype Address = RuntimeRoutine(id: string) | QtNoop

  /** CachedLinkEntry: a name and an address, nothing else. */
  datatype Entry = Entry(name: string, addr: Address)

  /** CACHED_LINK_TABLE_ENTRY_RUNTIME(x): the name "Runtime::x" beside the address of QV4::Runtime::x. */
  function RuntimeEntry(id: string): Entry
  {
    Entry("Runtime::" + id, RuntimeRoutine(id))
  }

  /** The entry that keeps the operator groups index-aligned with the runtime's operator tables. */
  const Placeholder: Entry := Entry("NOOP", QtNoop)

  /** An entry's name alone tells which routine it calls, and no runtime entry is mistaken for
      the placeholder. */
  lemma RuntimeEntryNamesRoutine(a: string, b: string)
    ensures RuntimeEntry(a).name == RuntimeEntry(b).name <==> a == b
    ensures RuntimeEntry(a) != Placeholder
  {
    if RuntimeEntry(a).name == RuntimeEntry(b).name {
      assert a == RuntimeEntry(a).name[9..] && b == RuntimeEntry(b).name[9..];
    }
    assert RuntimeEntry(a).addr != QtNoop;
  }

  /** A run of runtime entries, one per identifier, in the given order. */
  function RuntimeGroup(ids: seq<string>): seq<Entry>
  {
    seq(|ids|, i requires 0 <= i < |ids| => RuntimeEntry(ids[i]))
  }

  /** A group of concatenated identifier lists is the concatenation of their groups, so each
      list keeps its entries at its own offset in the table. */
  lemma RuntimeGroupAppend(a: seq<string>, b: seq<string>)
    ensures RuntimeGroup(a + b) == RuntimeGroup(a) + RuntimeGroup(b)
  {
    forall i | 0 <= i < |a + b|
      ensures RuntimeGroup(a + b)[i] == (RuntimeGroup(a) + RuntimeGroup(b))[i]
    {
      if i < |a| { assert (a + b)[i] == a[i]; } else { assert (a + b)[i] == b[i - |a|]; }
    }
  }

  /** Calls, construction, property access, typeof, delete, exceptions and scopes, closures,
      function header, literals and foreach: indices 0 to 42. */
  const GeneralRoutines: seq<string> := [
    "callGlobalLookup", "callActivationProperty", "callQmlScopeObjectProperty",
    "callQmlContextObjectProperty", "callProperty", "callPropertyLookup", "callElement",
    "callValue", "constructGlobalLookup", "constructActivationProperty", "constructProperty",
    "constructPropertyLookup", "constructValue", "setActivationProperty", "setProperty",
    "setElement", "getProperty", "getActivationProperty", "getElement", "typeofValue",
    "typeofName", "typeofScopeObjectProperty", "typeofContextObjectProperty", "typeofMember",
    "typeofElement", "deleteElement", "deleteMember", "deleteMemberString", "deleteName",
    "throwException", "unwindException", "pushWithScope", "pushCatchScope", "popScope",
    "closure", "declareVar", "setupArgumentsObject", "convertThisToObject", "arrayLiteral",
    "objectLiteral", "regexpLiteral", "foreachIterator", "foreachNextPropertyName"
  ]

  const UnaryOperators: seq<string> := [
    "uPlus", "uMinus", "uNot", "complement", "increment", "decrement"
  ]

  const BinaryOperators: seq<string> := [
    "instanceof", "in", "add", "addString", "bitOr", "bitXor", "bitAnd", "sub", "mul", "div",
    "mod", "shl", "shr", "ushr", "greaterThan", "lessThan", "greaterEqual", "lessEqual",
    "equal", "notEqual", "strictEqual", "strictNotEqual"
  ]

  const CompareOperators: seq<string> := [
    "compareGreaterThan", "compareLessThan", "compareGreaterEqual", "compareLessEqual",
    "compareEqual", "compareNotEqual", "compareStrictEqual", "compareStrictNotEqual"
  ]

  const ContextCompareOperators: seq<string> := [
    "compareInstanceof", "compareIn"
  ]

  const Conversions: seq<string> := [
    "toBoolean", "toDouble", "toInt", "doubleToInt", "toUInt", "doubleToUInt"
  ]

  const QmlRoutines: seq<string> := [
    "getQmlIdObject", "getQmlContext", "getQmlImportedScripts", "getQmlSingleton",
    "getQmlContextObjectProperty", "getQmlScopeObjectProperty", "getQmlAttachedProperty",
    "getQmlQObjectProperty", "setQmlScopeObjectProperty", "setQmlContextObjectProperty",
    "setQmlQObjectProperty"
  ]

  /**
   * CACHED_LINK_TABLE. Each operator group opens with a placeholder standing for the
   * operation-type typedef of that group (the binary group has two: one for the plain and one
   * for the context-taking operation type).
   */
  const Table: seq<Entry> :=
    RuntimeGroup(GeneralRoutines)
    + [Placeholder] + RuntimeGroup(UnaryOperators)
    + [Placeholder, Placeholder] + RuntimeGroup(BinaryOperators)
    + [Placeholder] + RuntimeGroup(CompareOperators)
    + [Placeholder] + RuntimeGroup(ContextCompareOperators)
    + RuntimeGroup(Conversions)
    + RuntimeGroup(QmlRoutines)

  /** The indices at which the table holds a placeholder. */
  const PlaceholderIndices: set<nat> := {43, 50, 51, 74, 83}

  /** An entry produced by CACHED_LINK_TABLE_ENTRY_RUNTIME: its name is "Runtime::" followed by
      the identifier of the routine whose address it stores. */
  predicate IsRuntimeEntry(e: Entry)
  {
    e.addr.RuntimeRoutine? && e.name == "Runtime::" + e.addr.id
  }

  /** The table as its groups and placeholders, with the length of each group. */
  lemma TableLayout()
    ensures |RuntimeGroup(GeneralRoutines)| == 43 && |RuntimeGroup(UnaryOperators)| == 6
    ensures |RuntimeGroup(BinaryOperators)| == 22 && |RuntimeGroup(CompareOperators)| == 8
    ensures |RuntimeGroup(ContextCompareOperators)| == 2 && |RuntimeGroup(Conversions)| == 6
    ensures |RuntimeGroup(QmlRoutines)| == 11
    ensures |Table| == 103
  {
  }

  /** The entries up to the binary operators: the general routines, then the unary group. */
  lemma TableFront(i: nat)
    requires i < 52
    ensures i in PlaceholderIndices ==> Table[i] == Placeholder
    ensures i !in PlaceholderIndices ==> IsRuntimeEntry(Table[i])
  {
    TableLayout();
    if i < 43 { assert Table[i] == RuntimeGroup(GeneralRoutines)[i]; }
    else if 43 < i < 50 { assert Table[i] == RuntimeGroup(UnaryOperators)[i - 44]; }
  }

  /** The entries from the binary operators to the context comparisons. */
  lemma TableMiddle(i: nat)
    requires 52 <= i < 86
    ensures i in PlaceholderIndices ==> Table[i] == Placeholder
    ensures i !in PlaceholderIndices ==> IsRuntimeEntry(Table[i])
  {
    TableLayout();
    if i < 74 { assert Table[i] == RuntimeGroup(BinaryOperators)[i - 52]; }
    else if 74 < i < 83 { assert Table[i] == RuntimeGroup(CompareOperators)[i - 75]; }
    else if 83 < i { assert Table[i] == RuntimeGroup(ContextCompareOperators)[i - 84]; }
  }

  /** The conversions and the QML routines close the table. */
  lemma TableBack(i: nat)
    requires 86 <= i < 103
    ensures i !in PlaceholderIndices && IsRuntimeEntry(Table[i])
  {
    TableLayout();
    if i < 92 { assert Table[i] == RuntimeGroup(Conversions)[i - 86]; }
    else { assert Table[i] == RuntimeGroup(QmlRoutines)[i - 92]; }
  }

  /** The table has 103 entries; exactly the five placeholder indices hold "NOOP"/qt_noop, and
      every other entry pairs "Runtime::x" with the address of QV4::Runtime::x. */
  lemma TableShape()
    ensures |Table| == 103
    ensures forall i :: 0 <= i < |Table| && i in PlaceholderIndices ==> Table[i] == Placeholder
    ensures forall i :: 0 <= i < |Table| && i !in PlaceholderIndices ==> IsRuntimeEntry(Table[i])
  {
    TableLayout();
    forall i | 0 <= i < |Table|
      ensures i in PlaceholderIndices ==> Table[i] == Placeholder
      ensures i !in PlaceholderIndices ==> IsRuntimeEntry(Table[i])
    {
      if i < 52 { TableFront(i); } else if i < 86 { TableMiddle(i); } else { TableBack(i); }
    }
  }

  /** CACHED_LINK_TABLE[index]: the entry at a position of the table, if the position exists.
      The loader itself performs no bounds check; None is where C++ would read past the array. */
  function Lookup(table: seq<Entry>, index: nat): Option<Entry>
  {
    if index < |table| then Some(table[index]) else None
  }

  /** What the loader gets back for an index read from a cache file: nothing past entry 102;
      otherwise a placeholder exactly when the name is "NOOP", and a runtime routine named
      after itself. */
  lemma LookupTable(index: nat)
    ensures Lookup(Table, index).None? <==> index >= 103
    ensures Lookup(Table, index).Some? ==>
              (Lookup(Table, index).value.addr == QtNoop <==> Lookup(Table, index).value.name == "NOOP")
    ensures Lookup(Table, index).Some? && Lookup(Table, index).value.addr.RuntimeRoutine? ==>
              Lookup(Table, index).value.name == "Runtime::" + Lookup(Table, index).value.addr.id
  {
    TableShape();
    if index < |Table| {
      if index in PlaceholderIndices {
        assert Table[index] == Placeholder;
      } else {
        assert IsRuntimeEntry(Table[index]);
        assert |Table[index].name| >= 9;
      }
    }
  }

  /** A later version of the table extends an earlier one only by appending at the end. */
  predicate AppendOnly(earlier: seq<Entry>, later: seq<Entry>)
  {
    |earlier| <= |later| && later[..|earlier|] == earlier
  }

  /** Appending entries keeps every existing index resolving to the same name and address, so
      cache files written against the earlier table stay loadable with the later one. */
  lemma AppendOnlyPreservesLookups(earlier: seq<Entry>, later: seq<Entry>, index: nat)
    requires AppendOnly(earlier, later)
    requires index < |earlier|
    ensures Lookup(later, index) == Lookup(earlier, index)
    ensures Lookup(later, index).value.name == earlier[index].name
    ensures Lookup(later, index).value.addr == earlier[index].addr
  {
    assert later[index] == later[..|earlier|][index];
  }

  /** Append-only extension is a preorder: versions chain. */
  lemma AppendOnlyTransitive(a: seq<Entry>, b: seq<Entry>, c: seq<Entry>)
    requires AppendOnly(a, b) && AppendOnly(b, c)
    ensures AppendOnly(a, c)
  {
    assert c[..|a|] == c[..|b|][..|a|];
  }

  /** Any extension by appending is append-only. */
  lemma AppendIsAppendOnly(table: seq<Entry>, added: seq<Entry>)
    ensures AppendOnly(table, table + added)
  {
    assert (table + added)[..|table|] == table;
  }
}
