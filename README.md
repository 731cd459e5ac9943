# V4 instruction selection, JIT unit cache, scope chain and bound signals

A Dafny model of four pieces of the Qt QML V4 engine, with proofs of what each promises.

- **Instruction selection** (`ir.dfy`, `decoder.dfy`, `compile.dfy`):
  - the IR decoder's first-match dispatch from IR statements to backend hooks (`IRDecoder::visitMove`, `visitExp`, `callBuiltin`), including the list walks of `declare_vars` and `define_object_literal` and the QML property dependencies recorded on the function being compiled;
  - `EvalInstructionSelection::runAll`, which selects every function in order and stops at the first fatal one;
  - `EvalInstructionSelection::compile`, which goes through the JIT unit cache.
- **JIT unit cache** (`bytes.dfy`, `cache_format.dfy`, `unit_cache.dfy`, `cache_gate.dfy`, `compile.dfy`):
  - the QDataStream helpers `writeData`, `writeDataWithLen` and `readData`;
  - the byte layout of a cache file, the writer that produces it and the loader that reads it back, with its identity check and call relinking;
  - the MD5 trailer and its integrity test;
  - the one-shot directory check driven by the engine's `CacheState` (UNTESTED / VALID / INVALID);
  - compile()'s choice between restoring, recompiling and saving.
- **Cached link table** (`link_table.dfy`): `CACHED_LINK_TABLE` as a constant sequence of (name, address) entries, its layout, lookup by index and append-only extension.
- **Scope chain** (`context.dfy`): `ExecutionContext`'s walk over With, Catch, Call, QML and Global contexts:
  - `getProperty`, `getPropertyAndBase`, `setProperty`, `deleteProperty`, `createMutableBinding`;
  - `newCallContext`, `formalCount`, `variableCount`, `needsOwnArguments`.
- **Bound signals** (`bound_signal.dfy`):
  - the intrusive handler list with pointer-to-pointer back-links (`addToObject`, `removeFromObject`);
  - the reference-counting `QQmlBoundSignalExpressionPointer`;
  - `setExpression`, `takeExpression`, the signal callback;
  - the wrapper source that `evaluate` builds.

State the source changes in place is modelled as classes:
- the decoder with its log of hook calls;
- the read and write streams;
- the engine and the cache directory;
- the instruction selector;
- the execution context;
- the handler list and its nodes, the expressions and the expression pointer.

The decoder, runAll, the cache's readers and writers, compile(), the scope chain walks and the expression's evaluate are each proved against a specification function, whose properties are proved as lemmas. The handler list, the reference-counting pointer and the handler's expression slot are stated directly as the new links, counts and pointers. Host services are parameters:
- MD5 as hex digits, `ctime()`, `$APP_ID`;
- the source files with their modification times;
- the directory listing;
- the bytes past the path buffer.

The backend's machine code and the JS unit generator's output are parameters too (`Backend`).

Where the C++ reader uses memory it never filled, the model has an explicit undefined outcome. Where the instruction selector would hit `Q_ASSERT` or `Q_UNREACHABLE`, the model has an explicit `Fatal` outcome. Elsewhere an assertion becomes a precondition or is left out (see "## Left out").

Where the prose design of the cache and the code disagree, the model follows the code:
- **Identity check.** The stored identity of each function need not equal the live one. The test is containment (`QString::contains`), and the stored string carries its NUL (`UnitCacheFormat.IdentityIsContainment`).
- **Checksum.** The test is `contains` on the last 32 bytes, so a file shorter than 32 bytes is compared with the digest of nothing (`UnitCacheFormat.IntegrityOfShortFile`). The trailer is read through `QLatin1String`, which ends at its first NUL: a trailer starting with a NUL, such as that of a zero-filled file, passes whatever the contents (`UnitCacheFormat.NulTrailerPasses`).
- **Identity mismatch.** A mismatch does not discard the cache file: it is kept, and nothing is saved in its place (`CompileDriver.MismatchKeepsFile`).
- **Directory check.** It compares modification times only, on their low 32 bits. It removes a file whose source is gone on its own. Only a changed time purges the directory (`CacheGate.GateOutcomes`).
- **Unit data.** It is written only when its size is not 0, but always read. A module with functions and empty unit data therefore never loads from its file (`UnitCacheFormat.EmptyUnitNeverLoads`).
- **`push_with_scope`.** A `push_with_scope` whose operand is not a slot is `Q_UNIMPLEMENTED`: a warning, not the fatal path.

## Model

| member | source | states |
|---|---|---|
| ByteCodec.ToU32 | src/qml/compiler/qv4isel_p.cpp:201 | the `(quint32)` cast of an integer: below 2^32, equal to the integer when it fits, congruent to it modulo 2^32 |
| ByteCodec.EncodeU32 | src/qml/compiler/qv4isel_p.cpp:83-84 | a quint32's memory image is four bytes |
| ByteCodec.DecodeU32 | src/qml/compiler/qv4isel_p.cpp:186 | four bytes read into a quint32 give a value below 2^32 |
| ByteCodec.DecodeEncodeU32 | src/qml/compiler/qv4isel_p.cpp:83-84 | a quint32 written as its four memory bytes reads back as itself |
| ByteCodec.EncodeDecodeU32 | src/qml/compiler/qv4isel_p.cpp:185-186 | any four bytes read into a quint32 are that word's memory image |
| ByteCodec.OverwriteU32 | src/qml/compiler/qv4isel_p.cpp:264-265 | reading into an initialised quint32: four bytes read give their word, no bytes read leave the initial value |
| ByteCodec.NumberText | src/qml/compiler/qv4isel_p.cpp:393-394 | `QString::number` text is non-empty and holds no NUL |
| ByteCodec.NaturalText | src/qml/compiler/qv4isel_p.cpp:393-394 | the decimal text of a natural number is non-empty and all digits |
| ByteCodec.ContainsIffOccurs | src/qml/compiler/qv4isel_p.cpp:284 | `contains` holds exactly when the needle occurs at some offset |
| ByteCodec.ContainsAt | src/qml/compiler/qv4isel_p.cpp:284 | a string occurring at an offset is contained |
| ByteCodec.ContainsEmpty | src/qml/compiler/qv4isel_p.cpp:247 | the empty string is contained in every string |
| ByteCodec.ContainsSameLength | src/qml/compiler/qv4isel_p.cpp:247 | between strings of one length, containment is equality |
| ByteCodec.CString | src/qml/compiler/qv4isel_p.cpp:284 | a `char *` buffer as C code sees it: the bytes before the first NUL, or none when it has no NUL |
| ByteCodec.UpToNul | src/qml/compiler/qv4isel_p.cpp:198-199 | what strlen-based code sees of a buffer: a NUL-free prefix that ends at a NUL or at the end |
| ByteCodec.CStringOfTerminated | src/qml/compiler/qv4isel_p.cpp:396-399 | a string written with its terminating NUL reads back as itself |
| CachedLinkData.RuntimeEntryNamesRoutine | src/qml/jit/qv4cachedlinkdata_p.h:45-47 | `CACHED_LINK_TABLE_ENTRY_RUNTIME`: an entry's name alone determines the routine it calls, and no runtime entry equals the NOOP placeholder |
| CachedLinkData.RuntimeGroupAppend | src/qml/jit/qv4cachedlinkdata_p.h:52-115 | a run of runtime entries over concatenated identifier lists is the two runs concatenated, so each group keeps its entries at its own offset |
| CachedLinkData.TableLayout | src/qml/jit/qv4cachedlinkdata_p.h:52-192 | the sizes of the table's groups, and 103 entries in all |
| CachedLinkData.TableFront | src/qml/jit/qv4cachedlinkdata_p.h:54-124 | up to the unary operators, the placeholder index holds NOOP/qt_noop and every other index a runtime entry |
| CachedLinkData.TableMiddle | src/qml/jit/qv4cachedlinkdata_p.h:126-170 | from the binary operators to the context comparisons, the placeholder indices hold NOOP/qt_noop and every other index a runtime entry |
| CachedLinkData.TableBack | src/qml/jit/qv4cachedlinkdata_p.h:172-191 | the conversions and QML routines are all runtime entries |
| CachedLinkData.TableShape | src/qml/jit/qv4cachedlinkdata_p.h:118-168 | exactly the five placeholder indices hold NOOP/qt_noop; every other entry is a runtime entry |
| CachedLinkData.LookupTable | src/qml/jit/qv4cachedlinkdata_p.h:40-43 | `CACHED_LINK_TABLE[index]` as the loader uses it: nothing past entry 102; otherwise a placeholder exactly when the name is "NOOP", and a runtime routine under its own name |
| CachedLinkData.AppendOnlyPreservesLookups | src/qml/jit/qv4cachedlinkdata_p.h:49-51 | after entries are appended, every existing index resolves to the same name and address |
| CachedLinkData.AppendOnlyTransitive | src/qml/jit/qv4cachedlinkdata_p.h:49-51 | append-only versions chain |
| CachedLinkData.AppendIsAppendOnly | src/qml/jit/qv4cachedlinkdata_p.h:49-51 | adding entries at the end is an append-only extension |
| UnitCacheFormat.EncodeLinks | src/qml/compiler/qv4isel_p.cpp:403-408 | the link records of a function are written as eight bytes each |
| UnitCacheFormat.DecodeEncodeLinks | src/qml/compiler/qv4isel_p.cpp:300-302 | link records read back as the records written |
| UnitCacheFormat.EncodePrimitives | src/qml/compiler/qv4isel_p.cpp:410-414 | the constants of a function are written as eight bytes each |
| UnitCacheFormat.DecodeEncodePrimitives | src/qml/compiler/qv4isel_p.cpp:307-311 | constants read back as the constants written |
| UnitCacheFormat.LoadIdentity | src/qml/compiler/qv4isel_p.cpp:280-282 | the identity string the loader builds equals the saved one for a name without NUL |
| UnitCacheFormat.EncodeSized | src/qml/compiler/qv4isel_p.cpp:400-401 | a block is its length word followed by its bytes |
| UnitCacheFormat.EncodeHeader | src/qml/compiler/qv4isel_p.cpp:379-385 | the header is the URL length, that many bytes, and the mtime word |
| UnitCacheFormat.EncodeUnit | src/qml/compiler/qv4isel_p.cpp:417-423 | the unit data is written exactly when its size word is not 0 |
| UnitCacheFormat.TrailerSplit | src/qml/compiler/qv4isel_p.cpp:246-247 | `left(size - 32)` and `right(32)` cut a file into payload and trailer and lose nothing; a file under 32 bytes has no payload and is all trailer |
| UnitCacheFormat.SavedFilePassesIntegrity | src/qml/compiler/qv4isel_p.cpp:246-247 | a file the save path wrote passes the integrity test |
| UnitCacheFormat.IntegrityOfLongFile | src/qml/compiler/qv4isel_p.cpp:246-247 | for a file of 32 bytes or more whose trailer holds no NUL, the test holds exactly when the trailer is the digest of the rest (read up to a NUL) |
| UnitCacheFormat.IntegrityOfShortFile | src/qml/compiler/qv4isel_p.cpp:246-247 | a shorter file passes exactly when the digest of nothing contains its bytes up to the first NUL, so the empty file, a file starting with a NUL and a one-digit file pass |
| UnitCacheFormat.NulTrailerPasses | src/qml/compiler/qv4isel_p.cpp:246-247 | a file whose last 32 bytes start with a NUL passes the test whatever its contents |
| UnitCacheFormat.ZeroFilledFilePasses | src/qml/compiler/qv4isel_p.cpp:245-251 | a non-empty zero-filled file passes the test, so it is kept and loaded rather than removed |
| UnitCacheFormat.ReadRaw | src/qml/compiler/qv4isel_p.cpp:93 | `readRawData`: up to len bytes from the front, fewer at the end, none for a length above INT_MAX |
| UnitCacheFormat.Skip | src/qml/compiler/qv4isel_p.cpp:93 | the stream after a read is what follows the bytes read |
| UnitCacheFormat.Relink | src/qml/compiler/qv4isel_p.cpp:321-330 | every link record becomes a call to the table entry at its index, with that entry's address and name; undefined when an index lies past the table |
| UnitCacheFormat.Pad | src/qml/compiler/qv4isel_p.cpp:300-302 | a resized vector after a short read: the bytes read, then zeros |
| UnitCacheFormat.ReadCode | src/qml/compiler/qv4isel_p.cpp:289-295 | the code block read is a prefix of the stream after its length word |
| UnitCacheFormat.ReadBlock | src/qml/compiler/qv4isel_p.cpp:297-302 | a count and eight bytes per counted record |
| UnitCacheFormat.ParseRecordsCounts | src/qml/compiler/qv4isel_p.cpp:273-287 | the records read restore one function per live function, and a mismatch names a live function's position |
| UnitCacheFormat.ParseCache | src/qml/compiler/qv4isel_p.cpp:262-359 | a restore has one function per live function and unit data exactly when there is a function |
| UnitCacheFormat.Restore | src/qml/compiler/qv4isel_p.cpp:321-339 | a restored function keeps its code and constants, with each call relinked through the table |
| UnitCacheFormat.IdentityMatchesItself | src/qml/compiler/qv4isel_p.cpp:280-284 | a saved identity holds no NUL and passes the load-time test for the same function |
| UnitCacheFormat.ReadCodeOfEncoded | src/qml/compiler/qv4isel_p.cpp:289-295 | stored code reads back as itself |
| UnitCacheFormat.ReadLinksOfEncoded | src/qml/compiler/qv4isel_p.cpp:297-302 | stored link records read back as themselves |
| UnitCacheFormat.ReadConstantsOfEncoded | src/qml/compiler/qv4isel_p.cpp:304-311 | stored constants read back as themselves |
| UnitCacheFormat.ParseBodyOfEncoded | src/qml/compiler/qv4isel_p.cpp:289-339 | a stored body reads back as the code relinked, and reading goes on after it |
| UnitCacheFormat.ParseRecordOfEncoded | src/qml/compiler/qv4isel_p.cpp:274-339 | a stored record reads back as its function restored, for any live identity that contains it |
| UnitCacheFormat.ParseRecordsOfEncoded | src/qml/compiler/qv4isel_p.cpp:273-343 | stored records read back, in order, as their functions restored |
| UnitCacheFormat.LiveIdentitiesMatch | src/qml/compiler/qv4isel_p.cpp:280-284 | every function's saved identity passes the load-time test for that function |
| UnitCacheFormat.HeaderSkipped | src/qml/compiler/qv4isel_p.cpp:264-269 | the loader skips a stored header exactly |
| UnitCacheFormat.UnitReadBack | src/qml/compiler/qv4isel_p.cpp:345-351 | stored unit data reads back as its size and its bytes |
| UnitCacheFormat.LoadAfterSave | src/qml/compiler/qv4isel_p.cpp:262-359 | loading a saved file for the same functions restores every function, relinked, with the saved unit data when there is a function |
| UnitCacheFormat.ParseCacheOfShortUnit | src/qml/compiler/qv4isel_p.cpp:345-351 | a unit size promising more bytes than remain is undefined for a module with functions |
| UnitCacheFormat.EmptyUnitNeverLoads | src/qml/compiler/qv4isel_p.cpp:345-358 | a module with functions saved with empty unit data never loads: the checksum's first characters are read as its size |
| UnitCacheFormat.GateReadsSavedHeader | src/qml/compiler/qv4isel_p.cpp:185-195 | the directory check reads the recorded path with "file://" stripped and the low 32 bits of the mtime |
| UnitCacheFormat.IdentityIsContainment | src/qml/compiler/qv4isel_p.cpp:284 | a stored identity passes for a different live function whose identity string contains it |
| CacheGate.Engine.constructor | src/qml/compiler/qv4isel_p.cpp:105-109 | an engine starts with the cache state UNTESTED |
| CacheGate.FileVerdict | src/qml/compiler/qv4isel_p.cpp:182-208 | a listed name that cannot be opened is kept |
| CacheGate.RemoveNames | src/qml/compiler/qv4isel_p.cpp:217-218 | exactly the listed names are gone; every other file is unchanged |
| CacheGate.ScanOnlyRemovesOrphans | src/qml/compiler/qv4isel_p.cpp:178-213 | the scan only removes files, and only listed ones whose recorded source is gone |
| CacheGate.ValidScanIsUpToDate | src/qml/compiler/qv4isel_p.cpp:178-215 | a scan that runs to the end met no stale file and removed every orphan |
| CacheGate.InvalidScanFoundStale | src/qml/compiler/qv4isel_p.cpp:199-204 | a scan that stops early found a listed file whose recorded mtime differs |
| CacheGate.GateOutcomes | src/qml/compiler/qv4isel_p.cpp:173-220 | an INVALID check leaves none of the listed files; a VALID one keeps every file except removed orphans |
| CacheGate.ReadGateHeader | src/qml/compiler/qv4isel_p.cpp:185-195 | the head of a cache file as the directory check reads it |
| CacheGate.CheckCacheFile | src/qml/compiler/qv4isel_p.cpp:182-212 | one turn of the scan: the file's verdict, and the file removed exactly when orphaned |
| CacheGate.RemoveListed | src/qml/compiler/qv4isel_p.cpp:217-218 | every listed name removed from the directory |
| CacheGate.CheckCacheDirectory | src/qml/compiler/qv4isel_p.cpp:173-220 | the engine's new state and the directory left are those of the check's specification |
| UnitCache.AsIntRoundTrip | src/qml/compiler/qv4isel_p.cpp:91 | a quint32 length passed as an int: the cast back recovers it, it is negative exactly above INT_MAX, and it fits a 32-bit int |
| UnitCache.ReadReportsFullRead | src/qml/compiler/qv4isel_p.cpp:91-98 | readData reports success exactly when all the bytes asked for were there |
| UnitCache.ReadOfAllOnesReportsSuccess | src/qml/compiler/qv4isel_p.cpp:91-98 | a length of 0xffffffff reads nothing and still reports success |
| UnitCache.ReadStream.ReadData | src/qml/compiler/qv4isel_p.cpp:91-98 | readData: the bytes read, the stream moved past them, and the reported success |
| UnitCache.ReadStream.ReadWord | src/qml/compiler/qv4isel_p.cpp:185-186 | reading into a zero-initialised quint32 |
| UnitCache.WriteStream.WriteData | src/qml/compiler/qv4isel_p.cpp:73-79 | writeData appends the first len bytes, and reports success for a non-negative length |
| UnitCache.WriteStream.WriteDataWithLen | src/qml/compiler/qv4isel_p.cpp:81-89 | writeDataWithLen appends the length as a quint32, then the bytes |
| UnitCache.RelinkCalls | src/qml/compiler/qv4isel_p.cpp:321-330 | the loop relinking a function's calls computes Relink |
| UnitCache.ReadCodeBytes | src/qml/compiler/qv4isel_p.cpp:289-295 | the code of a record as ReadCode describes it |
| UnitCache.ReadCountedBlock | src/qml/compiler/qv4isel_p.cpp:297-302 | a counted block as ReadBlock describes it |
| UnitCache.ReadLinkRecords | src/qml/compiler/qv4isel_p.cpp:297-302 | the link records of a record as ReadLinks describes them |
| UnitCache.ReadConstantValues | src/qml/compiler/qv4isel_p.cpp:304-311 | the constants of a record as ReadConstants describes them |
| UnitCache.ReadBody | src/qml/compiler/qv4isel_p.cpp:289-339 | a record's body as ParseBody describes it |
| UnitCache.ReadRecord | src/qml/compiler/qv4isel_p.cpp:274-339 | one record as ParseRecord describes it |
| UnitCache.ReadRecords | src/qml/compiler/qv4isel_p.cpp:273-343 | the records loop computes ParseRecords |
| UnitCache.LoadCache | src/qml/compiler/qv4isel_p.cpp:262-359 | the load path computes ParseCache |
| UnitCache.WriteWord | src/qml/compiler/qv4isel_p.cpp:380 | writing a quint32 appends its memory image |
| UnitCache.WriteBody | src/qml/compiler/qv4isel_p.cpp:400-414 | appends EncodeBody |
| UnitCache.WriteRecord | src/qml/compiler/qv4isel_p.cpp:392-414 | appends EncodeRecord |
| UnitCache.WriteHeader | src/qml/compiler/qv4isel_p.cpp:379-385 | appends EncodeHeader |
| UnitCache.WriteRecords | src/qml/compiler/qv4isel_p.cpp:387-415 | the records loop appends one record per function, in order |
| UnitCache.WriteUnit | src/qml/compiler/qv4isel_p.cpp:417-423 | appends EncodeUnit |
| UnitCache.WriteCache | src/qml/compiler/qv4isel_p.cpp:375-428 | the buffer written is the payload followed by its hex MD5 |
| InstructionSelection.FirstUndeclarable | src/qml/compiler/qv4isel_p.cpp:733-737 | the position of the first argument that is not a declarable name |
| InstructionSelection.DeclareVarsOutcome | src/qml/compiler/qv4isel_p.cpp:728-738 | no arguments emit nothing; otherwise one declaration per following name, in order, with the flag's deletable |
| InstructionSelection.SkipPairs | src/qml/compiler/qv4isel_p.cpp:749-757 | the key/value walk ends within the list |
| InstructionSelection.SkipPairsOverEncoding | src/qml/compiler/qv4isel_p.cpp:749-757 | the walk over encoded key/value entries lands right after them: 3 cells for data, 4 for accessors |
| InstructionSelection.SkipPairsOver | src/qml/compiler/qv4isel_p.cpp:749-757 | the key/value walk over a list holding encoded entries from a position lands right after them |
| InstructionSelection.SparseScanOverEncoding | src/qml/compiler/qv4isel_p.cpp:759-772 | the sparse scan reports exactly whether an array-entry index exceeds 16 |
| InstructionSelection.ObjectLiteralRoundTrip | src/qml/compiler/qv4isel_p.cpp:744-775 | an encoded object literal decodes to its count, its key/value section, its array section and the sparse flag |
| InstructionSelection.DeclareVarsRoundTrip | src/qml/compiler/qv4isel_p.cpp:728-738 | encoded declare_vars decodes to one declaration per name, in order |
| InstructionSelection.NameLoadPriority | src/qml/compiler/qv4isel_p.cpp:448-459 | a name loaded into a slot picks `this`, the QML context, the imported scripts, a singleton, or else an activation read |
| InstructionSelection.SlotMoveSwapsIffMarked | src/qml/compiler/qv4isel_p.cpp:463-468 | slot to slot is a swap exactly when the move is marked as one, otherwise a copy |
| InstructionSelection.MemberReadDependency | src/qml/compiler/qv4isel_p.cpp:489-515 | a resolved property read records core index to notify index exactly inside a function, for a non-attached, non-constant context or scope property |
| InstructionSelection.QObjectReadsAlwaysCapture | src/qml/compiler/qv4isel_p.cpp:494-513 | every generic QObject property read a move emits requires capture |
| InstructionSelection.MemberLoadCaptures | src/qml/compiler/qv4isel_p.cpp:509-513 | a member load's generic QObject read requires capture |
| InstructionSelection.CallsReadNoQObject | src/qml/compiler/qv4isel_p.cpp:532-552 | no call emits a generic QObject property read |
| InstructionSelection.TypeofDeleteValueOperands | src/qml/compiler/qv4isel_p.cpp:660-683 | typeof accepts a constant as a value; delete of a constant is fatal |
| InstructionSelection.OneHookPerMove | src/qml/compiler/qv4isel_p.cpp:440-597 | a move that is not a builtin call emits exactly one hook or is fatal; never unimplemented |
| InstructionSelection.LoadsWriteTheTarget | src/qml/compiler/qv4isel_p.cpp:447-557 | every value-producing hook of a move into a slot writes that slot |
| InstructionSelection.UnmatchedMovesAreFatal | src/qml/compiler/qv4isel_p.cpp:588-596 | a move into anything but a name, slot, member or subscript is fatal |
| InstructionSelection.MemberStoreTyped | src/qml/compiler/qv4isel_p.cpp:558-578 | SelectMove into a member: no dependency; a typed QML or QObject write exactly when the property is resolved and not attached, else the generic write by name |
| InstructionSelection.ExpIsCallWithoutResult | src/qml/compiler/qv4isel_p.cpp:603-629 | SelectExp: an expression statement calls as a move's call with no result (SelectCall), when a member call's base is a slot |
| InstructionSelection.ExpMemberCallNeedsSlot | src/qml/compiler/qv4isel_p.cpp:611-612 | a member call on a non-slot base is a generic call in a move but fails the assert in an expression statement |
| InstructionSelection.InsertDependencyRecords | src/qml/compiler/qv4isel_p.cpp:500-508 | a recorded read maps its core index to its notify index in the map of its kind; no key is lost and every other entry stays |
| InstructionSelection.InsertDependencyIdempotent | src/qml/compiler/qv4isel_p.cpp:500-508 | recording the same read twice is recording it once |
| InstructionSelection.DeclareVars | src/qml/compiler/qv4isel_p.cpp:728-738 | the loop over declare_vars computes DeclareVarsOutcome |
| InstructionSelection.DefineObjectLiteral | src/qml/compiler/qv4isel_p.cpp:744-775 | the two loops over define_object_literal compute ObjectLiteralOutcome |
| InstructionSelection.IRDecoder.CallBuiltin | src/qml/compiler/qv4isel_p.cpp:631-796 | callBuiltin selects SelectBuiltin and logs its hooks |
| InstructionSelection.IRDecoder.VisitMove | src/qml/compiler/qv4isel_p.cpp:440-597 | visitMove selects SelectMove, logs its hooks and records its dependency on the current function |
| InstructionSelection.IRDecoder.Visit | src/qml/compiler/qv4isel_p.cpp:440-629 | a statement goes to visitMove or visitExp, the hooks logged are its selection's, and the current function's maps gain the move's dependency (an expression statement adds none) |
| InstructionSelection.IRDecoder.VisitExp | src/qml/compiler/qv4isel_p.cpp:603-629 | visitExp selects SelectExp and logs its hooks |
| CompileDriver.SelectBodyWithoutFatal | src/qml/compiler/qv4isel_p.cpp:139-141 | a body is fatal exactly when one of its statements is; otherwise it emits all their hooks in order |
| CompileDriver.SelectBodyFatalAt | src/qml/compiler/qv4isel_p.cpp:139-141 | a fatal body carries the fault of its first fatal statement |
| CompileDriver.SelectBodyIsFirstFatal | src/qml/compiler/qv4isel_p.cpp:139-141 | a body without a fatal statement emits the hooks of all statements in order; otherwise it stops at the first fatal one with its fault |
| CompileDriver.Run | src/qml/compiler/qv4isel_p.cpp:140 | run(i) visits the function's statements in order, as SelectBody describes, and leaves its maps as Recorded: every reached statement's dependency inserted |
| CompileDriver.RecordedWithoutReads | src/qml/compiler/qv4isel_p.cpp:500-508 | a body reading no context or scope object property leaves both maps as they were |
| CompileDriver.RecordedKeepsEntries | src/qml/compiler/qv4isel_p.cpp:500-508 | running a body never loses a map entry |
| CompileDriver.RecordedHasRead | src/qml/compiler/qv4isel_p.cpp:139-141 | a property read by a statement that run reaches is in the map of its kind afterwards |
| CompileDriver.GeneratedCode | src/qml/compiler/qv4isel_p.cpp:139-143 | a generated module has, for every function in order, its selected hooks with its compiled code |
| CompileDriver.NoFatalGenerates | src/qml/compiler/qv4isel_p.cpp:139-143 | a module with no fatal function generates |
| CompileDriver.GenerateAllInOrder | src/qml/compiler/qv4isel_p.cpp:139-141 | every function is selected, in order, exactly when none is fatal |
| CompileDriver.GenerateAllStopsAtFirstFatal | src/qml/compiler/qv4isel_p.cpp:139-141 | an aborted module carries the fault of its first fatal function |
| CompileDriver.RunAll | src/qml/compiler/qv4isel_p.cpp:137-153 | runAll: a fresh unit, not restored, with unit data only when asked, or the first fault; every function up to the first fatal one has its body's dependencies recorded, the rest keep their maps |
| CompileDriver.RunAt | src/qml/compiler/qv4isel_p.cpp:140 | run(i) changes the maps of function i only |
| CompileDriver.RanUpTo | src/qml/compiler/qv4isel_p.cpp:139-141 | the maps after runAll are those of run(0) .. run(n-1) when the (n-1)th function is the first fatal one, or n is the module's size |
| CompileDriver.Latin1 | src/qml/compiler/qv4isel_p.cpp:392 | `toLatin1` keeps the length and every Latin-1 character |
| CompileDriver.SaveThenLoad | src/qml/compiler/qv4isel_p.cpp:222-434 | with no cache file, a compile runs runAll and saves one; the next compile restores every function from it with the saved unit data, runs nothing, and leaves the directory as it was |
| CompileDriver.CacheStaysInUse | src/qml/compiler/qv4isel_p.cpp:173-434 | whatever the engine's cache state, a compile saves and the next restores |
| CompileDriver.IneligibleNeverRestores | src/qml/compiler/qv4isel_p.cpp:234-243 | an inline module, or one without an engine, never restores; an existing file is left alone |
| CompileDriver.MismatchKeepsFile | src/qml/compiler/qv4isel_p.cpp:284-285 | an intact file with mismatched identities is kept, and the module is compiled afresh without a save |
| CompileDriver.CorruptFileReplaced | src/qml/compiler/qv4isel_p.cpp:245-251 | a file failing the integrity test (its trailer, up to the first NUL, not in the digest of the rest) is removed and replaced by a fresh save |
| CompileDriver.SavedFileVerdict | src/qml/compiler/qv4isel_p.cpp:182-208 | a saved file is kept while its source has the same mtime (low 32 bits), stale once it changes, orphaned once the source is gone |
| CompileDriver.EvalInstructionSelection.constructor | src/qml/compiler/qv4isel_p.cpp:111-129 | the selector keeps its module and whether the cache was requested |
| CompileDriver.EvalInstructionSelection.LoadUnit | src/qml/compiler/qv4isel_p.cpp:256-359 | restoring from intact file data (the maps untouched), or runAll on a mismatch (the maps recorded) |
| CompileDriver.EvalInstructionSelection.Rebuild | src/qml/compiler/qv4isel_p.cpp:285-364 | the unit rebuilt from what the loader read with the maps untouched, or runAll on a mismatch with the maps recorded |
| CompileDriver.EvalInstructionSelection.CompileWithCache | src/qml/compiler/qv4isel_p.cpp:222-436 | compile() after the directory check computes CacheStep; the maps are recorded exactly on the paths that run runAll |
| CompileDriver.EvalInstructionSelection.LookUp | src/qml/compiler/qv4isel_p.cpp:229-364 | the cache file read, checked for integrity and restored from (the maps untouched), or the save path (the maps recorded) |
| CompileDriver.EvalInstructionSelection.OpenCacheFile | src/qml/compiler/qv4isel_p.cpp:229-251 | the file's contents when it exists; it loads exactly when it exists and passes the integrity test, whose trailer is read up to its first NUL; a file that does not load is removed (for an absent file the removal changes nothing) |
| CompileDriver.EvalInstructionSelection.CompileAndSave | src/qml/compiler/qv4isel_p.cpp:360-434 | runAll(false) with its maps recorded, unit data generated, and the module's file saved when eligible |
| CompileDriver.EvalInstructionSelection.Compile | src/qml/compiler/qv4isel_p.cpp:155-438 | compile() computes CompileSpec: runAll when the cache is off, otherwise the directory check, then restore or save; the maps are recorded exactly when runAll runs, so a restored module keeps them |
| ExecutionContexts.FormalCount | src/qml/jsruntime/qv4context.cpp:190-193 | formalCount: the function's formals, 0 without a compiled function |
| ExecutionContexts.VariableCount | src/qml/jsruntime/qv4context.cpp:200-203 | variableCount: the function's locals, 0 without a compiled function |
| ExecutionContexts.Find | src/qml/jsruntime/qv4context.cpp:375 | the first index of a name in the internal class, or none exactly when it is absent |
| ExecutionContexts.SlotLayout | src/qml/jsruntime/qv4context.cpp:376-379 | index i < formals lives in args[formals - i - 1], else in locals[i - formals]; distinct indices have distinct slots |
| ExecutionContexts.WriteSlot | src/qml/jsruntime/qv4context.cpp:303-309 | writing a declared slot: the slot reads back the value, every other slot is unchanged |
| ExecutionContexts.ResolveFromFirstMatch | src/qml/jsruntime/qv4context.cpp:352-403 | the walk answers with the first frame that has the name, each seeing the with/catch flags gathered inside it; ReferenceError when none does |
| ExecutionContexts.FirstMatchWins | src/qml/jsruntime/qv4context.cpp:340-404 | a name other than `this` is answered by the innermost context that has it, else ReferenceError |
| ExecutionContexts.ThisComesFirst | src/qml/jsruntime/qv4context.cpp:346-347 | `this` reads the call data's receiver before any scope |
| ExecutionContexts.SlotsHiddenWithoutActivation | src/qml/jsruntime/qv4context.cpp:374 | without activation and with no with or catch inside, declared slots are not consulted |
| ExecutionContexts.BaseIsWithOrQmlActivation | src/qml/jsruntime/qv4context.cpp:410-462 | the base is a with-object or a QML context's activation, never anything else |
| ExecutionContexts.FrameAssignShape | src/qml/jsruntime/qv4context.cpp:287-331 | a frame taking a write keeps its kind and layout, and no object disappears |
| ExecutionContexts.AssignKeepsShape | src/qml/jsruntime/qv4context.cpp:283-338 | a write changes at most one frame and keeps every frame's kind, layout and the object set |
| ExecutionContexts.AssignThenReadSlot | src/qml/jsruntime/qv4context.cpp:300-311 | after writing a declared name of an innermost function that needs activation, reading it gives the value |
| ExecutionContexts.AssignThenReadCatch | src/qml/jsruntime/qv4context.cpp:294-296 | after writing the innermost catch variable, reading it gives the value |
| ExecutionContexts.DeleteRemovesAtMostTheName | src/qml/jsruntime/qv4context.cpp:207-244 | delete removes at most the one property named, from one object, and adds nothing |
| ExecutionContexts.UnboundRead | src/qml/jsruntime/qv4context.cpp:401-403 | reading a name no context holds throws ReferenceError, including past call contexts without a compiled function |
| ExecutionContexts.UnboundDelete | src/qml/jsruntime/qv4context.cpp:239-243 | deleting a name no context holds, past call contexts that all have a compiled function, returns true without a change, or throws SyntaxError in strict mode |
| ExecutionContexts.UnboundAssign | src/qml/jsruntime/qv4context.cpp:332-337 | writing an unheld name throws ReferenceError in strict mode or for `this`, otherwise puts it on the global object |
| ExecutionContexts.CallFrameIndex | src/qml/jsruntime/qv4context.cpp:111-120 | the innermost context of type at least Type_CallContext, if any |
| ExecutionContexts.BindTarget | src/qml/jsruntime/qv4context.cpp:104-128 | a declaration lands on the innermost call context's activation (created when absent) or on the global object; an existing property is left as it was; a new one is undefined with configurable == deletable |
| ExecutionContexts.BindIdempotent | src/qml/jsruntime/qv4context.cpp:122-123 | declaring a name twice is declaring it once |
| ExecutionContexts.NewCallContext | src/qml/jsruntime/qv4context.cpp:51-82 | locals undefined, arguments padded with undefined up to the formals, argc the larger of the two, realArgumentCount the caller's argc, no activation |
| ExecutionContexts.FreshCallContext | src/qml/jsruntime/qv4context.cpp:246-249 | a fresh call context has its layout, needs its own arguments exactly when the function needs activation, and reports the function's counts |
| ExecutionContexts.ExecutionContext.constructor | src/qml/jsruntime/qv4context.cpp:131-135 | the global context of an engine, over its global object |
| ExecutionContexts.ExecutionContext.GetProperty | src/qml/jsruntime/qv4context.cpp:340-404 | the loop's result is Resolve's value |
| ExecutionContexts.ExecutionContext.GetPropertyAndBase | src/qml/jsruntime/qv4context.cpp:406-475 | the loop's result is Resolve's value and base |
| ExecutionContexts.ExecutionContext.SetProperty | src/qml/jsruntime/qv4context.cpp:283-338 | the new chain and objects are AssignFrom's, with the current context's strictness |
| ExecutionContexts.ExecutionContext.DeleteProperty | src/qml/jsruntime/qv4context.cpp:207-244 | the result and objects are DeleteFrom's |
| ExecutionContexts.ExecutionContext.CreateMutableBinding | src/qml/jsruntime/qv4context.cpp:104-128 | the new state is Bind's |
| ExecutionContexts.BindOk | src/qml/jsruntime/qv4context.cpp:104-128 | a declaration keeps the chain's layout and every object a frame names |
| BoundSignals.WrapperBody | src/qml/qml/qqmlboundsignal.cpp:140-162 | the handler body sits at a fixed position in the wrapper, which ends in " })" |
| BoundSignals.WrapperInjective | src/qml/qml/qqmlboundsignal.cpp:140-162 | distinct bodies give distinct wrappers |
| BoundSignals.BoundSignalExpression.constructor | src/qml/qml/qqmlboundsignal.cpp:69-97 | one reference, no notification on change, no function yet, the three source strings kept |
| BoundSignals.BoundSignalExpression.Evaluate | src/qml/qml/qqmlboundsignal.cpp:126-177 | the new state and the source built are Evaluation of the old state (the reference count and notification flag unchanged) |
| BoundSignals.EvaluationCases | src/qml/qml/qqmlboundsignal.cpp:114-177 | a source is built exactly when the expression is not inert and has its parameter names, and it wraps the handler body; a parameter error marks the expression and keeps expression(); a built source clears the strings, leaving expression() the compiled text or empty |
| BoundSignals.EvaluateAfterInvalidParameter | src/qml/qml/qqmlboundsignal.cpp:130-156 | an invalid parameter name builds nothing and keeps the text; every later evaluation returns at once |
| BoundSignals.EvaluateAfterFailedCompile | src/qml/qml/qqmlboundsignal.cpp:144-174 | after a failed compile expression() is empty, and the next evaluation wraps an empty body under an empty name with the signal's own parameter names, or marks the expression invalid when those are in error |
| BoundSignals.EvaluateAfterCompile | src/qml/qml/qqmlboundsignal.cpp:114-177 | after a successful compile expression() is the function's text and later evaluations build nothing and change nothing |
| BoundSignals.BoundSignalExpression.AddRef | src/qml/qml/qqmlboundsignal.cpp:355 | addref raises the count by one and writes nothing else |
| BoundSignals.BoundSignalExpression.Release | src/qml/qml/qqmlboundsignal.cpp:366 | release lowers the count by one and writes nothing else |
| BoundSignals.ExpressionPointer.constructor | src/qml/qml/qqmlboundsignal.cpp:352-356 | a non-null target gains a reference; nothing else of it changes |
| BoundSignals.ExpressionPointer.Copy | src/qml/qml/qqmlboundsignal.cpp:358-362 | a copy adds a reference to the shared target; nothing else of it changes |
| BoundSignals.ExpressionPointer.Destroy | src/qml/qml/qqmlboundsignal.cpp:364-367 | the destructor releases the target's reference; nothing else of it changes |
| BoundSignals.ExpressionPointer.Assign | src/qml/qml/qqmlboundsignal.cpp:369-383 | assignment adds a reference to the new target before releasing the old; self-assignment keeps the count; only the counts change |
| BoundSignals.ExpressionPointer.Clear | src/qml/qml/qqmlboundsignal.cpp:377-383 | assigning null releases the old target's reference; only its count changes |
| BoundSignals.ExpressionPointer.Take | src/qml/qml/qqmlboundsignal.cpp:389-394 | take releases the old target and stores the new one without a reference |
| BoundSignals.BoundSignal.constructor | src/qml/qml/qqmlboundsignal.cpp:257-272 | a handler for the signal, no expression, not evaluating, at the head of its owner's list |
| BoundSignals.Without | src/qml/qml/qqmlboundsignal.cpp:243-251 | a list without a handler: that handler is gone, every other handler stays |
| BoundSignals.BoundSignal.Unlink | src/qml/qml/qqmlboundsignal.cpp:245-250 | a linked handler at position k is spliced out of a well-linked list, which stays well linked, and its links are cleared; only link fields change |
| BoundSignals.BoundSignal.AddToObject | src/qml/qml/qqmlboundsignal.cpp:230-241 | an unlinked handler becomes the head of a well-linked list; only link fields change, so every handler keeps isEvaluating |
| BoundSignals.BoundSignal.RemoveFromObject | src/qml/qml/qqmlboundsignal.cpp:243-251 | the handler is spliced out and both links cleared, the list still well linked; an unlinked handler changes nothing; only link fields change |
| BoundSignals.BoundSignal.SetExpression | src/qml/qml/qqmlboundsignal.cpp:303-309 | stores the expression with a reference and notification off, and returns the previous one with its count unchanged; only those counts and that flag change |
| BoundSignals.BoundSignal.TakeExpression | src/qml/qml/qqmlboundsignal.cpp:318-324 | stores the expression without a reference and returns the previous one: no count changes, and nothing of either expression but the flag |
| BoundSignals.BoundSignal.Callback | src/qml/qml/qqmlboundsignal.cpp:326-348 | nothing without an expression; otherwise isEvaluating is set while the expression evaluates and cleared after, the expression's new state and source are Evaluation of its old state when there is an engine (its count and notification flag kept, and only the fields evaluate writes framed), and it is untouched without one |
| BoundSignals.BoundSignal.DropExpression | src/qml/qml/qqmlboundsignal.cpp:274-277 | ~QQmlBoundSignal: the pointer is null and the old expression has lost the handler's reference, its other fields unchanged |
| BoundSignals.BoundSignal.Destroy | src/qml/qml/qqmlboundsignal.cpp:225-277 | the destructor chain: the pointer null, the old expression has lost the handler's reference, and the handler is spliced out of its owner's list, which stays well linked; only link fields, the pointer and the count change |

The specification functions carry no contract of their own. Each is stated by the lemmas and methods of the rows above that speak about it:
- `SelectMove` and the selectors it dispatches to, `SelectLoad`, `SelectNameLoad`, `SelectMemberLoad` and `SelectMemberStore` (qv4isel_p.cpp:440-597): OneHookPerMove, NameLoadPriority, SlotMoveSwapsIffMarked, MemberReadDependency, QObjectReadsAlwaysCapture, MemberLoadCaptures, MemberStoreTyped, LoadsWriteTheTarget, UnmatchedMovesAreFatal, VisitMove.
- `SelectCall` and `SelectExp` (qv4isel_p.cpp:532-552, 603-629): CallsReadNoQObject, ExpIsCallWithoutResult, ExpMemberCallNeedsSlot, VisitExp.
- `SelectBuiltin`, `SelectTypeof` and `SelectDelete` (qv4isel_p.cpp:631-796): CallBuiltin, TypeofDeleteValueOperands, DeclareVars, DefineObjectLiteral.
- `FrameLookup`, `ResolveFrom` and `Resolve` (qv4context.cpp:340-404): ResolveFromFirstMatch, FirstMatchWins, ThisComesFirst, SlotsHiddenWithoutActivation, UnboundRead, GetProperty, GetPropertyAndBase.
- `FrameAssign` and `AssignFrom` (qv4context.cpp:283-338): FrameAssignShape, AssignKeepsShape, AssignThenReadSlot, AssignThenReadCatch, UnboundAssign, SetProperty.
- `FrameDelete` and `DeleteFrom` (qv4context.cpp:207-244): DeleteRemovesAtMostTheName, UnboundDelete, DeleteProperty.
- `BindingTarget` and `Bind` (qv4context.cpp:104-128): BindTarget, BindIdempotent, BindOk, CreateMutableBinding.
- `ParseRecord`, `ParseBody` and `ParseRecords` (qv4isel_p.cpp:273-343): ParseRecordOfEncoded, ParseBodyOfEncoded, ParseRecordsOfEncoded, ParseRecordsCounts, LoadAfterSave.
- `IntegrityHolds` (qv4isel_p.cpp:246-247): SavedFilePassesIntegrity, IntegrityOfLongFile, IntegrityOfShortFile, NulTrailerPasses, ZeroFilledFilePasses, OpenCacheFile, CorruptFileReplaced.
- `SaveIdentity` (qv4isel_p.cpp:392-399): IdentityMatchesItself, IdentityIsContainment, EmptyUnitNeverLoads.
- `EncodeRecord`, `EncodeBody`, `EncodePayload` and `EncodeFile` (qv4isel_p.cpp:383-434): ParseRecordOfEncoded, ParseBodyOfEncoded, LoadAfterSave, SavedFilePassesIntegrity.
- `SelectBody` (qv4isel_p.cpp:139-141): SelectBodyWithoutFatal, SelectBodyFatalAt, SelectBodyIsFirstFatal, Run.
- `GenerateAll` and `RanAll` (qv4isel_p.cpp:137-153): GeneratedCode, NoFatalGenerates, GenerateAllInOrder, GenerateAllStopsAtFirstFatal, RunAll.
- `Reload`, `CacheStep`, `LookupStep` and `SaveStep` (qv4isel_p.cpp:222-436): LoadUnit, Rebuild, CompileWithCache, LookUp, CompileAndSave, SaveThenLoad, MismatchKeepsFile, CorruptFileReplaced, IneligibleNeverRestores.
- `CompileSpec` (qv4isel_p.cpp:155-438): Compile, CacheStaysInUse.
- `Scan` and `GateOutcome` (qv4isel_p.cpp:173-220): ScanOnlyRemovesOrphans, ValidScanIsUpToDate, InvalidScanFoundStale, GateOutcomes, CheckCacheDirectory.
- `Wrapper` (qqmlboundsignal.cpp:140-162) and `BoundSignalExpression.Expression` (qqmlboundsignal.cpp:114-124): WrapperBody, WrapperInjective, EvaluationCases, EvaluateAfterFailedCompile, Evaluate.

## Left out

- Machine code: the assembler, `link`, `appendData`, the executable allocator, `backendCompileStep` and `generateUnit`. The compiled code of each function and the unit data are parameters (`Backend`); restored code is the stored bytes with the calls relinked.
- Host services: MD5, `stat`, `ctime`, `QDir`, `QFile` and the environment variables (`HOME`, `APP_ID`, `QV4_ENABLE_JIT_CACHE`). They are parameters (`Host`, `cacheRequested`). The directory is a map from file name to content; its listing is given.
- I/O failures: opening, reading and writing always succeed.
- The process-wide `do_cache` static: each selector has its own flag.
- `qgetenv` and `QCoreApplication::applicationName` in the cache path: the cache directory is given.
- The `V4_BOOTSTRAP` build: its `Q_UNIMPLEMENTED` branches are not modelled.
- The `IRPrinter`/`qDebug` dump on the fatal path. It is the `Fatal` outcome only.
- The backend's own hooks. `run(i)` is the decoder visiting the function's statements; what each hook does is not modelled.
- `Q_UNIMPLEMENTED` is a warning with no hook.
- `markObjects`, the memory manager, placement new and the alignment of locals: memory layout, not behaviour.
- `newWithContext`, `newCatchContext` and `newQmlContext`. The context kinds they create are values a chain may hold.
- The context type enum header is not part of this model. Call and QML contexts are the kinds at or above Type_CallContext.
- Contexts are values in a sequence. Two chains sharing outer contexts do not see each other's writes to call data or catch values.
- Objects are flat maps of data properties:
  - no prototype chain, accessors, writability or getter side effects;
  - `internalClass->find` is a search of the name list;
  - `putValue` on an activation's existing member is a plain write.
- ExecutionContexts.ExecutionContext.DeleteProperty: the TypeError a strict-mode delete of a non-configurable property throws inside `Object::deleteProperty` is not modelled; such a delete returns false.
- A call context whose function has no compiled function is modelled through `code == None`. A null function pointer is not.
- QQmlAbstractBoundSignal's other subclasses: `BoundSignal` joins the abstract base's links with QQmlBoundSignal's fields.
- BoundSignals.BoundSignal.RemoveFromObject: proved for the one owner list the handler sits in, passed as a ghost parameter. The owner is not recorded in the handler.
- BoundSignals.BoundSignalExpression.Release: destruction at count zero is not modelled; the object stays allocated.
- BoundSignals.ExpressionPointer.Take: the caller must hold its own reference to the incoming expression, as the documentation of `take` says. Taking the current target therefore needs a count of at least two.
- BoundSignals.BoundSignalExpression.Evaluate: `evalFunction` is a parameter (the compiled function's text, or none). The call of the function, argument marshalling, scarce-resource counting and error reporting are not modelled.
- BoundSignals.BoundSignal.Callback: the debugger notification, the profiler and the warning printed for an expression with an error are not modelled.
- CompileDriver.RunAll: the module's functions are required to be distinct objects (`Distinct`), as the IR module allocates each function once; the compile paths carry the same requirement.
- ExecutionContexts.NewCallContext: the `Q_ASSERT` that the callee has a compiled function (qv4context.cpp:53) is the precondition `callee.code.Some?`.
- BoundSignals.BoundSignal.AddToObject: the `Q_ASSERT`s that the handler is unlinked and the owner non-null (qqmlboundsignal.cpp:232-233) are preconditions.
- The `Q_ASSERT`s on the expression's target and index (qqmlboundsignal.cpp:95) and on its context and engine (qqmlboundsignal.cpp:117, :128) are left out: the model has no QML context or engine object.
- UnitCacheFormat.ReadBlock: a count with 8 * count above INT_MAX gives None; the source resizes its vector and reads with a truncated int length.
- CompileDriver.Latin1: counts Unicode scalar values; `toLatin1` counts UTF-16 units, so a character outside the BMP is one '?' here and two in Qt.
- UnitCacheFormat.SaveIdentity: keeps the bytes of a name past a NUL; `QLatin1String` over the `QByteArray` stops at the first NUL.
- `originalClone` and `QQmlNotifierEndpoint::connect`: the handler's signal index is given as already resolved.
- InstructionSelection: IR constants hold an integer where `IR::Const` holds a double. The conversions the selector applies to it are not captured for a non-integral, NaN or negative constant: `deletable->value != 0` (qv4isel_p.cpp:736), the truncation to `int keyValuePairsCount` (:746), `bool isData = value` (:752, :768) and `uint index = value` (:762). The IR lowering places only integral counts, flags and non-negative indices there.
- Integer widths: `int` and `quint32` are unbounded, except where the source's casts are written out (`ToU32`, `AsInt`). The containers' int sizes are requirements of the save path (`WithinIntSizes`).
