/**
 * The JIT unit cache's streams as compile() uses them: the QDataStream helpers (readData,
 * writeData, writeDataWithLen), the loader that walks a cache file record by record and the
 * writer that lays a file out. Every reader and writer here is proved against the byte-level
 * format of UnitCacheFormat.
 *
 * The MD5 hex digest is a parameter; the machine code, link records and constants of each
 * function are values handed in by the caller.
 */
module UnitCache {
  import opened Options
  import opened ByteCodec
  import opened CachedLinkData
  import opened UnitCacheFormat
  import opened IR
  import opened InstructionSelection

  // ---------------------------------------------------------------------------------------
  // Streams
  // ---------------------------------------------------------------------------------------

  /** The int a quint32 turns into when passed as an int length (two's complement). */
  function AsInt(n: u32): int
  {
    if n <= INT_MAX then n else n - WORD
  }

  /** The cast back to quint32 recovers the length, and the int is negative exactly for the
      lengths above INT_MAX; it always fits a 32-bit int. */
  lemma AsIntRoundTrip(n: u32)
    ensures ToU32(AsInt(n)) == n
    ensures AsInt(n) < 0 <==> n > INT_MAX
    ensures -(INT_MAX + 1) <= AsInt(n) <= INT_MAX
  {
    if n > INT_MAX {
      assert AsInt(n) + WORD == n;
    }
  }

  /**
   * Whether readData reports success: readRawData returns the number of bytes read, or -1
   * for a negative length, and readData compares that with the length it asked for.
   */
  predicate ReadReports(rest: Bytes, len: u32)
  {
    if len <= INT_MAX then len <= |rest| else AsInt(len) == -1
  }

  /** A non-negative length reports success exactly when that many bytes were there to read. */
  lemma ReadReportsFullRead(rest: Bytes, len: u32)
    requires len <= INT_MAX
    ensures ReadReports(rest, len) <==> |ReadRaw(rest, len)| == len
  {
  }

  /** The length 0xffffffff is -1 as an int: nothing is read, and readRawData's -1 equals the
      length asked for, so readData reports success. */
  lemma ReadOfAllOnesReportsSuccess(rest: Bytes)
    ensures ReadReports(rest, WORD - 1) && ReadRaw(rest, WORD - 1) == [] && Skip(rest, WORD - 1) == rest
  {
  }

  /** A QDataStream reading a file's content: `rest` is what is still unread. */
  class ReadStream {
    var rest: Bytes

    constructor (data: Bytes)
      ensures rest == data
    {
      rest := data;
    }

    /** readData(buffer, len, stream): copies up to len bytes into the buffer, returns whether
        readRawData reported len. The length reaches readRawData as an int. */
    method ReadData(len: u32) returns (got: Bytes, ok: bool)
      modifies this
      ensures got == ReadRaw(old(rest), len) && rest == Skip(old(rest), len)
      ensures ok == ReadReports(old(rest), len)
    {
      var n := AsInt(len);
      if n < 0 {
        // QIODevice::read refuses a negative size and returns -1
        got := [];
        ok := n == -1;
      } else {
        var count := if n <= |rest| then n else |rest|;
        got := rest[..count];
        rest := rest[count..];
        ok := count == n;
      }
    }

    /** readData(&v, 4, stream) into a quint32 v that holds 0: the word read, or what is left
        of the 0 where the stream ran dry. */
    method ReadWord() returns (w: u32)
      modifies this
      ensures w == Word(old(rest)) && rest == Skip(old(rest), 4)
    {
      var got, _ := ReadData(4);
      w := OverwriteU32(0, got);
    }
  }

  /** A QDataStream writing into a QBuffer: every write goes through. */
  class WriteStream {
    var written: Bytes

    constructor ()
      ensures written == []
    {
      written := [];
    }

    /** writeData(stream, data, len): writes the first len bytes of `memory`, returns whether
        writeRawData reported len. A negative length writes nothing and reports -1. */
    method WriteData(memory: Bytes, len: int) returns (ok: bool)
      requires len <= |memory|
      modifies this
      ensures written == old(written) + (if len >= 0 then memory[..len] else [])
      ensures ok <==> len >= 0 || len == -1
    {
      if len >= 0 {
        written := written + memory[..len];
        ok := true;
      } else {
        ok := len == -1;
      }
    }

    /** writeDataWithLen: the length as a quint32, then the bytes. For a whole buffer that fits
        an int this is the format's length-prefixed block. */
    method WriteDataWithLen(memory: Bytes, len: int) returns (ok: bool)
      requires -(INT_MAX as int) - 1 <= len <= INT_MAX && len <= |memory|
      modifies this
      ensures written == old(written) + EncodeU32(ToU32(len)) + (if len >= 0 then memory[..len] else [])
      ensures ok <==> len >= 0 || len == -1
      ensures len == |memory| ==> written == old(written) + EncodeSized(memory)
    {
      var l := EncodeU32(ToU32(len));
      ok := WriteData(l, 4);
      assert l[..4] == l;
      ok := WriteData(memory, len);
      assert len == |memory| ==> memory[..len] == memory;
    }
  }

  // ---------------------------------------------------------------------------------------
  // Loading
  // ---------------------------------------------------------------------------------------

  /** Relinking one more record: its call goes after the others, if its index is in the table. */
  lemma {:induction false} RelinkSnoc(links: seq<LinkRecord>, last: LinkRecord)
    ensures Relink(links + [last]) ==
            if Relink(links).Some? && last.index < |Table|
            then Some(Relink(links).value + [LinkedCall(last.offset, Table[last.index])])
            else None
  {
    if links == [] {
      assert [] + [last] == [last] && [last][1..] == [] && Relink([]) == Some([]);
      if last.index < |Table| {
        var call := LinkedCall(last.offset, Table[last.index]);
        assert Relink([last]) == Some([call] + []);
        assert [call] + [] == [] + [call];
      }
    } else {
      assert (links + [last])[0] == links[0] && (links + [last])[1..] == links[1..] + [last];
      RelinkSnoc(links[1..], last);
      if Relink(links).Some? && last.index < |Table| {
        var head := [LinkedCall(links[0].offset, Table[links[0].index])];
        assert head + (Relink(links[1..]).value + [LinkedCall(last.offset, Table[last.index])]) ==
               (head + Relink(links[1..]).value) + [LinkedCall(last.offset, Table[last.index])];
      }
    }
  }

  /** The calls of a restored function: each link record resolved through CACHED_LINK_TABLE,
      in record order. None where an index lies past the table. */
  method RelinkCalls(links: seq<LinkRecord>) returns (r: Option<seq<LinkedCall>>)
    ensures r == Relink(links)
  {
    var calls: seq<LinkedCall> := [];
    var i := 0;
    while i < |links|
      invariant 0 <= i <= |links|
      invariant Relink(links[..i]) == Some(calls)
    {
      var call := links[i];
      assert links[..i + 1] == links[..i] + [call];
      RelinkSnoc(links[..i], call);
      if call.index >= |Table| {
        return None;
      }
      calls := calls + [LinkedCall(call.offset, Table[call.index])];
      i := i + 1;
    }
    assert links[..i] == links;
    r := Some(calls);
  }

  /** The code of a record: its length word, then a buffer of that many bytes. */
  method ReadCodeBytes(s: ReadStream) returns (r: Option<Bytes>)
    modifies s
    ensures var c := ReadCode(old(s.rest));
            (r.None? <==> c.None?) && (r.Some? ==> r.value == c.value.0 && s.rest == c.value.1)
  {
    var len := s.ReadWord();
    var code, _ := s.ReadData(len);
    if |code| < len {
      return None;     // the rest of the malloc'd buffer was never written
    }
    r := Some(code);
  }

  /** A count word and that many eight-byte records, the buffer zero-filled where the stream
      runs dry; the bytes are read only for a non-zero count. */
  method ReadCountedBlock(s: ReadStream) returns (r: Option<(nat, Bytes)>)
    modifies s
    ensures var b := ReadBlock(old(s.rest));
            (r.None? <==> b.None?) && (r.Some? ==> r.value == (b.value.0, b.value.1) && s.rest == b.value.2)
  {
    var count := s.ReadWord();
    if 8 * count > INT_MAX {
      return None;
    }
    var got: Bytes := [];
    if count > 0 {
      var read, _ := s.ReadData(8 * count);
      got := read;
    }
    r := Some((count as nat, Pad(got, 8 * count)));
  }

  /** The link records of a record (a QVector resized to the count, then filled). */
  method ReadLinkRecords(s: ReadStream) returns (r: Option<seq<LinkRecord>>)
    modifies s
    ensures var l := ReadLinks(old(s.rest));
            (r.None? <==> l.None?) && (r.Some? ==> r.value == l.value.0 && s.rest == l.value.1)
  {
    var block := ReadCountedBlock(s);
    if block.None? {
      return None;
    }
    r := Some(DecodeLinks(block.value.1, block.value.0));
  }

  /** The constants of a record, read like the link records. */
  method ReadConstantValues(s: ReadStream) returns (r: Option<seq<Primitive>>)
    modifies s
    ensures var c := ReadConstants(old(s.rest));
            (r.None? <==> c.None?) && (r.Some? ==> r.value == c.value.0 && s.rest == c.value.1)
  {
    var block := ReadCountedBlock(s);
    if block.None? {
      return None;
    }
    r := Some(DecodePrimitives(block.value.1, block.value.0));
  }

  /** The body of a function record: code, link records, constants, then the relinked calls. */
  method ReadBody(s: ReadStream) returns (r: RecordRead)
    modifies s
    ensures r == ParseBody(old(s.rest))
    ensures r.RecordRead? ==> s.rest == r.rest
  {
    var code := ReadCodeBytes(s);
    if code.None? {
      return RecordUndefined;
    }
    var links := ReadLinkRecords(s);
    if links.None? {
      return RecordUndefined;
    }
    var constants := ReadConstantValues(s);
    if constants.None? {
      return RecordUndefined;
    }
    var calls := RelinkCalls(links.value);
    if calls.None? {
      return RecordUndefined;
    }
    r := RecordRead(RestoredFunction(code.value, calls.value, constants.value), s.rest);
  }

  /** One function record, checked against the live function's hash string. */
  method ReadRecord(s: ReadStream, hashString: Bytes) returns (r: RecordRead)
    modifies s
    ensures r == ParseRecord(old(s.rest), hashString)
    ensures r.RecordRead? ==> s.rest == r.rest
  {
    var w, _ := s.ReadData(4);
    if |w| < 4 {
      return RecordUndefined;
    }
    var fStr, _ := s.ReadData(DecodeU32(w));
    var stored := CString(fStr);
    if stored.None? {
      return RecordUndefined;
    }
    if !Contains(hashString, stored.value) {
      return RecordMismatch;
    }
    r := ReadBody(s);
  }

  /** Reading records for a non-empty list of live functions: the first, then the others. */
  lemma ParseRecordsCons(rest: Bytes, live: seq<Bytes>)
    requires live != []
    ensures ParseRecord(rest, live[0]).RecordMismatch? ==> ParseRecords(rest, live) == RecordsMismatch(0)
    ensures ParseRecord(rest, live[0]).RecordUndefined? ==> ParseRecords(rest, live) == RecordsUndefined
    ensures ParseRecord(rest, live[0]).RecordRead? ==>
              ParseRecords(rest, live) ==
              Prepend([ParseRecord(rest, live[0]).fn], ParseRecords(ParseRecord(rest, live[0]).rest, live[1..]))
  {
  }

  lemma PrependPrepend(a: seq<RestoredFunction>, b: seq<RestoredFunction>, r: RecordsRead)
    ensures Prepend(a, Prepend(b, r)) == Prepend(a + b, r)
  {
    if r.RecordsRead? {
      assert a + (b + r.fns) == (a + b) + r.fns;
    }
  }

  /** Reading the records for the live functions from the i-th on, one record at a time. */
  lemma ParseRecordsFrom(rest: Bytes, live: seq<Bytes>, i: nat)
    requires i < |live|
    ensures ParseRecord(rest, live[i]).RecordMismatch? ==> ParseRecords(rest, live[i..]) == RecordsMismatch(0)
    ensures ParseRecord(rest, live[i]).RecordUndefined? ==> ParseRecords(rest, live[i..]) == RecordsUndefined
    ensures ParseRecord(rest, live[i]).RecordRead? ==>
              ParseRecords(rest, live[i..]) ==
              Prepend([ParseRecord(rest, live[i]).fn], ParseRecords(ParseRecord(rest, live[i]).rest, live[i + 1..]))
  {
    assert live[i..][0] == live[i] && live[i..][1..] == live[i + 1..];
    ParseRecordsCons(rest, live[i..]);
  }

  /** One turn of the records loop, read on values: with the functions restored so far in
      front of the records still to read, the i-th record either extends them or decides the
      whole read. */
  lemma RecordsLoopStep(fns: seq<RestoredFunction>, rest: Bytes, live: seq<Bytes>, i: nat, whole: RecordsRead)
    requires i < |live| && |fns| == i
    requires Prepend(fns, ParseRecords(rest, live[i..])) == whole
    ensures ParseRecord(rest, live[i]).RecordMismatch? ==> whole == RecordsMismatch(i)
    ensures ParseRecord(rest, live[i]).RecordUndefined? ==> whole == RecordsUndefined
    ensures var rec := ParseRecord(rest, live[i]);
            rec.RecordRead? ==> Prepend(fns + [rec.fn], ParseRecords(rec.rest, live[i + 1..])) == whole
  {
    ParseRecordsFrom(rest, live, i);
    var rec := ParseRecord(rest, live[i]);
    if rec.RecordRead? {
      PrependPrepend(fns, [rec.fn], ParseRecords(rec.rest, live[i + 1..]));
    }
  }

  /** Before the records loop nothing is restored and every record is still to read. */
  lemma RecordsLoopStart(rest: Bytes, live: seq<Bytes>)
    ensures Prepend([], ParseRecords(rest, live[0..])) == ParseRecords(rest, live)
  {
    assert live[0..] == live;
    var r := ParseRecords(rest, live);
    if r.RecordsRead? {
      assert [] + r.fns == r.fns;
    }
  }

  /** After the last live function, the functions restored are the whole read. */
  lemma RecordsLoopEnd(fns: seq<RestoredFunction>, rest: Bytes, live: seq<Bytes>, whole: RecordsRead)
    requires Prepend(fns, ParseRecords(rest, live[|live|..])) == whole
    ensures whole == RecordsRead(fns, rest)
  {
    assert live[|live|..] == [];
    assert fns + [] == fns;
  }

  /** One turn of the records loop: the i-th record read and checked against its function's
      hash string, and where that leaves the reading of all records. */
  method ReadNextRecord(s: ReadStream, hashStrings: seq<Bytes>, i: nat, ghost fns: seq<RestoredFunction>,
                        ghost whole: RecordsRead) returns (rec: RecordRead)
    requires i < |hashStrings| && |fns| == i
    requires Prepend(fns, ParseRecords(s.rest, hashStrings[i..])) == whole
    modifies s
    ensures rec.RecordRead? ==> Prepend(fns + [rec.fn], ParseRecords(s.rest, hashStrings[i + 1..])) == whole
    ensures !rec.RecordRead? ==> whole == if rec.RecordMismatch? then RecordsMismatch(i) else RecordsUndefined
  {
    RecordsLoopStep(fns, s.rest, hashStrings, i, whole);
    rec := ReadRecord(s, hashStrings[i]);
  }

  /** The records of the live functions, one after the other, each read and checked against
      that function's hash string. The first failing check stops the loop with that
      function's index. */
  method ReadRecords(s: ReadStream, hashStrings: seq<Bytes>) returns (r: RecordsRead)
    modifies s
    ensures r == ParseRecords(old(s.rest), hashStrings)
    ensures r.RecordsRead? ==> s.rest == r.rest
  {
    ghost var whole := ParseRecords(s.rest, hashStrings);
    RecordsLoopStart(s.rest, hashStrings);
    var fns: seq<RestoredFunction> := [];
    var i := 0;
    while i < |hashStrings|
      invariant 0 <= i <= |hashStrings| && |fns| == i
      invariant Prepend(fns, ParseRecords(s.rest, hashStrings[i..])) == whole
    {
      var rec := ReadNextRecord(s, hashStrings, i, fns, whole);
      if !rec.RecordRead? {
        // a mismatch falls back to runAll; an undefined read has no outcome to speak of
        return if rec.RecordMismatch? then RecordsMismatch(i) else RecordsUndefined;
      }
      fns := fns + [rec.fn];
      i := i + 1;
    }
    RecordsLoopEnd(fns, s.rest, hashStrings, whole);
    r := RecordsRead(fns, s.rest);
  }

  /**
   * The load path over a cache file's content: the recorded name and mtime are skipped, the
   * records read, and the unit data read last; it is kept only when there are functions.
   */
  method LoadCache(data: Bytes, live: seq<FunctionIdentity>) returns (r: LoadResult)
    ensures r == ParseCache(data, live)
  {
    var s := new ReadStream(data);
    var strLen := s.ReadWord();
    var _, _ := s.ReadData(strLen);
    var _ := s.ReadWord();
    // the hash string of function i is its name up to the first NUL, its line and its column
    var records := ReadRecords(s, HashStrings(live));
    if records.RecordsMismatch? {
      return IdentityMismatch(records.index);
    }
    if records.RecordsUndefined? {
      return LoadUndefined;
    }
    var size := s.ReadWord();
    var blob: Bytes := [];
    if size > 0 {
      var read, _ := s.ReadData(size);
      blob := read;
    }
    if |live| == 0 {
      return Restored(records.fns, None);
    }
    if size == 0 || |blob| < size {
      return LoadUndefined;
    }
    r := Restored(records.fns, Some(blob));
  }

  // ---------------------------------------------------------------------------------------
  // Saving
  // ---------------------------------------------------------------------------------------

  /** writeData of a quint32 variable: its four bytes in memory. */
  method WriteWord(w: WriteStream, n: u32)
    modifies w
    ensures w.written == old(w.written) + EncodeU32(n)
  {
    var memory := EncodeU32(n);
    var _ := w.WriteData(memory, 4);
    assert memory[..4] == memory;
  }

  /** writeData of a whole buffer whose size fits an int. */
  method WriteBlock(w: WriteStream, b: Bytes)
    requires |b| <= INT_MAX
    modifies w
    ensures w.written == old(w.written) + b
  {
    var _ := w.WriteData(b, |b|);
    assert b[..|b|] == b;
  }

  /** Code that fits the int-sized writes: its length, and the byte size of its link records
      and of its constants, are at most INT_MAX. */
  predicate Writable(c: CompiledCode)
  {
    |c.code| <= INT_MAX && 8 * |c.links| <= INT_MAX && 8 * |c.constants| <= INT_MAX
  }

  /** The body of one function's record: code, link records, constants, each behind its count;
      an empty link or constant vector writes its count only. */
  method WriteBody(w: WriteStream, c: CompiledCode)
    requires Writable(c)
    modifies w
    ensures w.written == old(w.written) + EncodeBody(c)
  {
    ghost var before := w.written;
    WriteWord(w, |c.code|);
    WriteBlock(w, c.code);
    assert c.code[..ToU32(|c.code|)] == c.code;
    ghost var afterCode := w.written;
    WriteWord(w, |c.links|);
    if |c.links| > 0 {
      WriteBlock(w, EncodeLinks(c.links));
    }
    ghost var afterLinks := w.written;
    WriteWord(w, |c.constants|);
    if |c.constants| > 0 {
      WriteBlock(w, EncodePrimitives(c.constants));
    }
    BodyWritten(before, afterCode, afterLinks, w.written, c);
  }

  /** The pieces WriteBody appends, regrouped as the format lays them out. */
  lemma BodyWritten(before: Bytes, afterCode: Bytes, afterLinks: Bytes, after: Bytes, c: CompiledCode)
    requires |c.code| <= INT_MAX
    requires afterCode == before + EncodeSized(c.code)
    requires afterLinks == afterCode + EncodeU32(ToU32(|c.links|)) + EncodeLinks(c.links)
    requires after == afterLinks + EncodeU32(ToU32(|c.constants|)) + EncodePrimitives(c.constants)
    ensures after == before + EncodeBody(c)
  {
  }

  /** One function's record: the identity string's length with its NUL, the string and the
      NUL, then the body. */
  method WriteRecord(w: WriteStream, id: Bytes, c: CompiledCode)
    requires |id| < INT_MAX && Writable(c)
    modifies w
    ensures w.written == old(w.written) + EncodeRecord(id, c)
  {
    ghost var before := w.written;
    var strLen := |id| + 1;
    WriteWord(w, strLen);
    WriteBlock(w, id + [0]);
    ghost var afterId := w.written;
    WriteBody(w, c);
    RecordWritten(before, afterId, w.written, id, c);
  }

  lemma RecordWritten(before: Bytes, afterId: Bytes, after: Bytes, id: Bytes, c: CompiledCode)
    requires |id| < INT_MAX
    requires afterId == before + EncodeU32(|id| + 1) + (id + [0])
    requires after == afterId + EncodeBody(c)
    ensures after == before + EncodeRecord(id, c)
  {
  }

  /** The records of the first i + 1 functions are those of the first i, then function i's. */
  lemma EncodeRecordsSnoc(ids: seq<Bytes>, cs: seq<CompiledCode>, i: nat)
    requires |ids| == |cs| && i < |ids|
    ensures EncodeRecords(ids[..i + 1], cs[..i + 1]) == EncodeRecords(ids[..i], cs[..i]) + EncodeRecord(ids[i], cs[i])
  {
    var blocks := RecordBlocks(ids[..i], cs[..i]);
    assert RecordBlocks(ids[..i + 1], cs[..i + 1]) == blocks + [EncodeRecord(ids[i], cs[i])];
    ConcatSnoc(blocks, EncodeRecord(ids[i], cs[i]));
  }

  /** The header: the URL's length, as many bytes from the path with "file://" removed (the
      path, its NUL and whatever lies behind it), the low word of the source's mtime. */
  method WriteHeader(w: WriteStream, url: Bytes, mtime: int, beyond: Bytes)
    requires 7 <= |url| <= INT_MAX && |beyond| == 6
    modifies w
    ensures w.written == old(w.written) + EncodeHeader(url, mtime, beyond)
  {
    ghost var before := w.written;
    WriteWord(w, |url|);
    WriteBlock(w, url[7..] + [0] + beyond);
    WriteWord(w, ToU32(mtime));
    HeaderWritten(before, w.written, url, mtime, beyond);
  }

  lemma HeaderWritten(before: Bytes, after: Bytes, url: Bytes, mtime: int, beyond: Bytes)
    requires 7 <= |url| <= INT_MAX && |beyond| == 6
    requires after == before + EncodeU32(|url|) + (url[7..] + [0] + beyond) + EncodeU32(ToU32(mtime))
    ensures after == before + EncodeHeader(url, mtime, beyond)
  {
  }

  /** One turn of the records loop: function i's record written after those before it. */
  method WriteNextRecord(w: WriteStream, fs: seq<FunctionIdentity>, cs: seq<CompiledCode>, i: nat,
                         ghost before: Bytes)
    requires |fs| == |cs| && i < |fs| && |SaveIdentity(fs[i])| < INT_MAX && Writable(cs[i])
    requires w.written == before + EncodeRecords(SavedIdentities(fs)[..i], cs[..i])
    modifies w
    ensures w.written == before + EncodeRecords(SavedIdentities(fs)[..i + 1], cs[..i + 1])
  {
    ghost var prev := w.written;
    var id := SaveIdentity(fs[i]);
    WriteRecord(w, id, cs[i]);
    RecordsWrittenStep(before, prev, w.written, SavedIdentities(fs), cs, i);
  }

  lemma RecordsWrittenStep(before: Bytes, prev: Bytes, after: Bytes, ids: seq<Bytes>, cs: seq<CompiledCode>, i: nat)
    requires |ids| == |cs| && i < |ids|
    requires prev == before + EncodeRecords(ids[..i], cs[..i])
    requires after == prev + EncodeRecord(ids[i], cs[i])
    ensures after == before + EncodeRecords(ids[..i + 1], cs[..i + 1])
  {
    EncodeRecordsSnoc(ids, cs, i);
    Regroup(before, EncodeRecords(ids[..i], cs[..i]), EncodeRecord(ids[i], cs[i]));
  }

  /** No records written yet, and all of them once the loop is through. */
  lemma RecordsWrittenBounds(before: Bytes, ids: seq<Bytes>, cs: seq<CompiledCode>)
    requires |ids| == |cs|
    ensures before + EncodeRecords(ids[..0], cs[..0]) == before
    ensures EncodeRecords(ids[..|ids|], cs[..|ids|]) == EncodeRecords(ids, cs)
  {
    assert ids[..|ids|] == ids && cs[..|ids|] == cs;
    assert RecordBlocks(ids[..0], cs[..0]) == [];
  }

  /** One record per function, in order. */
  method WriteRecords(w: WriteStream, fs: seq<FunctionIdentity>, cs: seq<CompiledCode>)
    requires |fs| == |cs|
    requires forall i :: 0 <= i < |fs| ==> |SaveIdentity(fs[i])| < INT_MAX && Writable(cs[i])
    modifies w
    ensures w.written == old(w.written) + EncodeRecords(SavedIdentities(fs), cs)
  {
    ghost var before := w.written;
    RecordsWrittenBounds(before, SavedIdentities(fs), cs);
    var i := 0;
    while i < |cs|
      invariant 0 <= i <= |cs|
      invariant w.written == before + EncodeRecords(SavedIdentities(fs)[..i], cs[..i])
    {
      WriteNextRecord(w, fs, cs, i, before);
      i := i + 1;
    }
  }

  /** The unit data's size and bytes, written only when the size is not 0. */
  method WriteUnit(w: WriteStream, unit: Bytes)
    requires |unit| <= INT_MAX
    modifies w
    ensures w.written == old(w.written) + EncodeUnit(unit)
  {
    if |unit| > 0 {
      WriteWord(w, |unit|);
      WriteBlock(w, unit);
      assert unit[..ToU32(|unit|)] == unit;
    } else {
      assert w.written == old(w.written) + [];
    }
  }

  /**
   * The save path's serialisation into the in-memory buffer: the header, one record per
   * function, the unit data when its size is not 0, then the hex MD5 of all of that.
   * Qt's containers are int-sized, which bounds every length written.
   */
  method WriteCache(url: Bytes, mtime: int, beyond: Bytes, fs: seq<FunctionIdentity>, cs: seq<CompiledCode>,
                    unit: Bytes, md5hex: Bytes -> Bytes) returns (file: Bytes)
    requires 7 <= |url| <= INT_MAX && |beyond| == 6 && |fs| == |cs| && |unit| <= INT_MAX
    requires forall i :: 0 <= i < |fs| ==> |SaveIdentity(fs[i])| < INT_MAX && Writable(cs[i])
    ensures file == EncodeFile(EncodePayload(url, mtime, beyond, fs, cs, unit), md5hex)
  {
    var w := new WriteStream();
    WriteHeader(w, url, mtime, beyond);
    ghost var header := w.written;
    WriteRecords(w, fs, cs);
    ghost var records := w.written;
    WriteUnit(w, unit);
    PayloadWritten(header, records, w.written, url, mtime, beyond, fs, cs, unit);
    file := w.written + md5hex(w.written);
  }

  lemma PayloadWritten(header: Bytes, records: Bytes, after: Bytes, url: Bytes, mtime: int, beyond: Bytes,
                       fs: seq<FunctionIdentity>, cs: seq<CompiledCode>, unit: Bytes)
    requires 7 <= |url| <= INT_MAX && |beyond| == 6 && |fs| == |cs|
    requires header == [] + EncodeHeader(url, mtime, beyond)
    requires records == header + EncodeRecords(SavedIdentities(fs), cs)
    requires after == records + EncodeUnit(unit)
    ensures after == EncodePayload(url, mtime, beyond, fs, cs, unit)
  {
    var h := EncodeHeader(url, mtime, beyond);
    assert header == h;
    Regroup(h, EncodeRecords(SavedIdentities(fs), cs), EncodeUnit(unit));
  }
}
