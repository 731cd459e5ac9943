/**
 * The byte layout of a JIT unit cache file, as the save path writes it and the load path and
 * the directory gate read it back. Everything here is a function of the bytes: the writer is
 * the encoding of a compiled module, the reader is stated over the whole file content with an
 * explicit outcome for the places where the C++ reader would use memory it never filled.
 *
 * File layout (all words are little-endian quint32 memory images):
 *   [|url|] [url without "file://", NUL, 6 bytes past that buffer] [mtime]
 *   per function: [|identity|+1] [identity, NUL] [|code|] [code] [#links] [links] [#consts] [consts]
 *   [unit size] [unit]            -- only when the size is not 0
 *   32 hex characters: the MD5 digest of everything before them
 */
module UnitCacheFormat {
  import opened Options
  import opened ByteCodec
  import opened CachedLinkData

  /** A call site still to be linked: the link-table index of its target and the call's offset
      in the code. Stored as these two words, eight bytes. */
  datatype LinkRecord = LinkRecord(index: u32, offset: u32)

  /** A QV4::Primitive constant: one 64-bit value, as its low and high word. */
  datatype Primitive = Primitive(low: u32, high: u32)

  /** The identity of an IR function: its name as Latin-1 bytes, its line and its column. */
  datatype FunctionIdentity = FunctionIdentity(name: Bytes, line: int, column: int)

  /** What the backend produced for one function: machine code, the calls still to link and
      the constant table. */
  datatype CompiledCode = CompiledCode(code: Bytes, links: seq<LinkRecord>, constants: seq<Primitive>)

  /** A call site after relinking: its offset, and the table entry (address and name) it calls. */
  datatype LinkedCall = LinkedCall(offset: u32, target: Entry)

  /** A function as the loader rebuilds it: code, relinked calls, constants. */
  datatype RestoredFunction = RestoredFunction(code: Bytes, calls: seq<LinkedCall>, constants: seq<Primitive>)

  // ---------------------------------------------------------------------------------------
  // Records of two words
  // ---------------------------------------------------------------------------------------

  /** The memory image of one link record: its index word, then its offset word. */
  function LinkBytes(l: LinkRecord): (r: Bytes)
    ensures |r| == 8
  {
    EncodeU32(l.index) + EncodeU32(l.offset)
  }

  /** The images of the link records laid end to end. */
  function EncodeLinks(links: seq<LinkRecord>): (r: Bytes)
    ensures |r| == 8 * |links|
  {
    seq(8 * |links|, k requires 0 <= k < 8 * |links| => LinkBytes(links[k / 8])[k % 8])
  }

  /** The `count` link records whose images fill `b`. */
  function DecodeLinks(b: Bytes, count: nat): (r: seq<LinkRecord>)
    requires |b| == 8 * count
    ensures |r| == count
  {
    seq(count, i requires 0 <= i < count => LinkRecord(DecodeU32(b[8 * i..8 * i + 4]), DecodeU32(b[8 * i + 4..8 * i + 8])))
  }

  /** The eight bytes of record i in a block of records. */
  lemma RecordSlice(b: Bytes, n: nat, i: nat, image: Bytes)
    requires |b| == 8 * n && i < n && |image| == 8
    requires forall k :: 8 * i <= k < 8 * i + 8 ==> b[k] == image[k - 8 * i]
    ensures b[8 * i..8 * i + 4] == image[..4] && b[8 * i + 4..8 * i + 8] == image[4..]
  {
  }

  /** Position k lies in the eight-byte record k / 8, at offset k % 8. */
  lemma RecordPosition(k: int, i: nat)
    requires 8 * i <= k < 8 * i + 8
    ensures k / 8 == i && k % 8 == k - 8 * i
  {
  }

  lemma DecodeEncodeLink(links: seq<LinkRecord>, i: nat)
    requires i < |links|
    ensures DecodeLinks(EncodeLinks(links), |links|)[i] == links[i]
  {
    var b := EncodeLinks(links);
    var image := LinkBytes(links[i]);
    forall k | 8 * i <= k < 8 * i + 8
      ensures b[k] == image[k - 8 * i]
    {
      RecordPosition(k, i);
    }
    RecordSlice(b, |links|, i, image);
    assert image[..4] == EncodeU32(links[i].index) && image[4..] == EncodeU32(links[i].offset);
    DecodeEncodeU32(links[i].index);
    DecodeEncodeU32(links[i].offset);
  }

  lemma DecodeEncodeLinks(links: seq<LinkRecord>)
    ensures DecodeLinks(EncodeLinks(links), |links|) == links
  {
    forall i | 0 <= i < |links|
      ensures DecodeLinks(EncodeLinks(links), |links|)[i] == links[i]
    {
      DecodeEncodeLink(links, i);
    }
  }

  /** The memory image of one constant: its low word, then its high word. */
  function PrimitiveBytes(p: Primitive): (r: Bytes)
    ensures |r| == 8
  {
    EncodeU32(p.low) + EncodeU32(p.high)
  }

  /** The images of the constants laid end to end. */
  function EncodePrimitives(ps: seq<Primitive>): (r: Bytes)
    ensures |r| == 8 * |ps|
  {
    seq(8 * |ps|, k requires 0 <= k < 8 * |ps| => PrimitiveBytes(ps[k / 8])[k % 8])
  }

  /** The `count` constants whose images fill `b`. */
  function DecodePrimitives(b: Bytes, count: nat): (r: seq<Primitive>)
    requires |b| == 8 * count
    ensures |r| == count
  {
    seq(count, i requires 0 <= i < count => Primitive(DecodeU32(b[8 * i..8 * i + 4]), DecodeU32(b[8 * i + 4..8 * i + 8])))
  }

  lemma DecodeEncodePrimitive(ps: seq<Primitive>, i: nat)
    requires i < |ps|
    ensures DecodePrimitives(EncodePrimitives(ps), |ps|)[i] == ps[i]
  {
    var b := EncodePrimitives(ps);
    var image := PrimitiveBytes(ps[i]);
    forall k | 8 * i <= k < 8 * i + 8
      ensures b[k] == image[k - 8 * i]
    {
      RecordPosition(k, i);
    }
    RecordSlice(b, |ps|, i, image);
    assert image[..4] == EncodeU32(ps[i].low) && image[4..] == EncodeU32(ps[i].high);
    DecodeEncodeU32(ps[i].low);
    DecodeEncodeU32(ps[i].high);
  }

  lemma DecodeEncodePrimitives(ps: seq<Primitive>)
    ensures DecodePrimitives(EncodePrimitives(ps), |ps|) == ps
  {
    forall i | 0 <= i < |ps|
      ensures DecodePrimitives(EncodePrimitives(ps), |ps|)[i] == ps[i]
    {
      DecodeEncodePrimitive(ps, i);
    }
  }

  // ---------------------------------------------------------------------------------------
  // Writing
  // ---------------------------------------------------------------------------------------

  /** The identity string the save path writes: name, then the decimal line and column. */
  function SaveIdentity(f: FunctionIdentity): Bytes
  {
    f.name + NumberText(f.line) + NumberText(f.column)
  }

  /** The identity string the load path compares against: the same, except that the name is
      taken through a `const char *`, so it ends at its first NUL. */
  function LoadIdentity(f: FunctionIdentity): (r: Bytes)
    ensures 0 !in f.name ==> r == SaveIdentity(f)
  {
    UpToNul(f.name) + NumberText(f.line) + NumberText(f.column)
  }

  /** A length word followed by that many bytes; a length of 2^32 or more is written wrapped,
      and only that many bytes follow. */
  function EncodeSized(b: Bytes): (r: Bytes)
    ensures |b| < WORD ==> r == EncodeU32(|b|) + b
  {
    EncodeU32(ToU32(|b|)) + b[..ToU32(|b|)]
  }

  /** The header: the length of the whole URL, then that many bytes read from the start of
      the path with "file://" removed, which are the path, its NUL and the six bytes that
      follow that buffer in memory (`beyond`), then the low word of the source's mtime. */
  function EncodeHeader(url: Bytes, mtime: int, beyond: Bytes): (r: Bytes)
    requires |url| >= 7 && |beyond| == 6
    ensures |r| == 8 + |url|
  {
    EncodeU32(ToU32(|url|)) + (url[7..] + [0] + beyond + EncodeU32(ToU32(mtime)))
  }

  /** The identity strings of all functions, in order. */
  function SavedIdentities(fs: seq<FunctionIdentity>): seq<Bytes>
  {
    seq(|fs|, i requires 0 <= i < |fs| => SaveIdentity(fs[i]))
  }

  /** One function's record: its identity string `id` with a NUL, then the body. */
  function EncodeRecord(id: Bytes, c: CompiledCode): Bytes
  {
    EncodeU32(ToU32(|id| + 1)) + ((id + [0]) + EncodeBody(c))
  }

  /** The body of a record: code, link records, constants, each behind its length word. */
  function EncodeBody(c: CompiledCode): Bytes
  {
    EncodeSized(c.code)
    + (EncodeU32(ToU32(|c.links|)) + (EncodeLinks(c.links)
    + (EncodeU32(ToU32(|c.constants|)) + EncodePrimitives(c.constants))))
  }

  /** The bytes of several blocks, one after the other. */
  function Concat(blocks: seq<Bytes>): Bytes
  {
    if blocks == [] then [] else blocks[0] + Concat(blocks[1..])
  }

  lemma {:induction false} ConcatSnoc(blocks: seq<Bytes>, b: Bytes)
    ensures Concat(blocks + [b]) == Concat(blocks) + b
  {
    if blocks != [] {
      assert (blocks + [b])[1..] == blocks[1..] + [b];
      ConcatSnoc(blocks[1..], b);
    }
  }

  /** The records of all functions, in order. */
  function RecordBlocks(ids: seq<Bytes>, cs: seq<CompiledCode>): seq<Bytes>
    requires |ids| == |cs|
  {
    seq(|ids|, i requires 0 <= i < |ids| => EncodeRecord(ids[i], cs[i]))
  }

  function EncodeRecords(ids: seq<Bytes>, cs: seq<CompiledCode>): Bytes
    requires |ids| == |cs|
  {
    Concat(RecordBlocks(ids, cs))
  }

  /** The unit data: its size word and its bytes, or nothing at all when the size is 0. */
  function EncodeUnit(unit: Bytes): (r: Bytes)
    ensures ToU32(|unit|) == 0 <==> r == []
  {
    if ToU32(|unit|) > 0 then EncodeSized(unit) else []
  }

  /** Everything before the checksum. */
  function EncodePayload(url: Bytes, mtime: int, beyond: Bytes, fs: seq<FunctionIdentity>,
                         cs: seq<CompiledCode>, unit: Bytes): Bytes
    requires |url| >= 7 && |beyond| == 6 && |fs| == |cs|
  {
    EncodeHeader(url, mtime, beyond) + (EncodeRecords(SavedIdentities(fs), cs) + EncodeUnit(unit))
  }

  /** The file: the payload followed by the hex MD5 digest of the payload. */
  function EncodeFile(payload: Bytes, md5hex: Bytes -> Bytes): Bytes
  {
    payload + md5hex(payload)
  }

  // ---------------------------------------------------------------------------------------
  // The checksum test
  // ---------------------------------------------------------------------------------------

  /** QByteArray::left: everything when n is at least the size, nothing when n is negative. */
  function Left(b: Bytes, n: int): Bytes
  {
    if n <= 0 then [] else if n >= |b| then b else b[..n]
  }

  /** QByteArray::right: everything when n is at least the size. */
  function Right(b: Bytes, n: nat): Bytes
  {
    if n >= |b| then b else b[|b| - n..]
  }

  /** Left and Right cut a file into its payload and its 32-byte trailer and lose nothing; a
      file shorter than the trailer has no payload and is all trailer. */
  lemma TrailerSplit(b: Bytes)
    ensures |b| >= 32 ==> Left(b, |b| - 32) + Right(b, 32) == b && |Right(b, 32)| == 32
    ensures |b| < 32 ==> Left(b, |b| - 32) == [] && Right(b, 32) == b
  {
    if |b| >= 32 {
      assert b[..|b| - 32] + b[|b| - 32..] == b;
    }
  }

  /** The integrity test as written: the hex digest of all but the last 32 bytes contains
      the last 32 bytes. Both sides go through `QLatin1String` over a `QByteArray`, which ends
      at the first NUL, so a trailer is compared only up to its first NUL. */
  predicate IntegrityHolds(data: Bytes, md5hex: Bytes -> Bytes)
  {
    Contains(UpToNul(md5hex(Left(data, |data| - 32))), UpToNul(Right(data, 32)))
  }

  /** A file the save path wrote passes the test. */
  lemma SavedFilePassesIntegrity(payload: Bytes, md5hex: Bytes -> Bytes)
    requires |md5hex(payload)| == 32
    ensures IntegrityHolds(EncodeFile(payload, md5hex), md5hex)
  {
    var data := EncodeFile(payload, md5hex);
    assert Left(data, |data| - 32) == payload;
    assert Right(data, 32) == md5hex(payload);
    ContainsSameLength(UpToNul(md5hex(payload)), UpToNul(md5hex(payload)));
  }

  /** For a file of at least 32 bytes whose trailer holds no NUL, and 32-character digests,
      `contains` is the exact comparison of the trailer with the digest of the rest (read up to a NUL, which hex
      digits never hold). */
  lemma IntegrityOfLongFile(data: Bytes, md5hex: Bytes -> Bytes)
    requires |data| >= 32 && |md5hex(data[..|data| - 32])| == 32 && 0 !in data[|data| - 32..]
    ensures IntegrityHolds(data, md5hex) <==> UpToNul(md5hex(data[..|data| - 32])) == data[|data| - 32..]
    ensures 0 !in md5hex(data[..|data| - 32]) ==>
              (IntegrityHolds(data, md5hex) <==> md5hex(data[..|data| - 32]) == data[|data| - 32..])
  {
    var digest, trailer := UpToNul(md5hex(data[..|data| - 32])), data[|data| - 32..];
    assert Left(data, |data| - 32) == data[..|data| - 32];
    assert UpToNul(Right(data, 32)) == trailer;
    assert IntegrityHolds(data, md5hex) == Contains(digest, trailer);
    if |digest| == |trailer| {
      ContainsSameLength(digest, trailer);
    } else {
      assert |digest| < |trailer|;
      assert !Contains(digest, trailer);
    }
  }

  /** A trailer that starts with a NUL is an empty needle, and the empty needle is contained in
      every digest: such a file passes whatever its contents. */
  lemma NulTrailerPasses(data: Bytes, md5hex: Bytes -> Bytes)
    requires Right(data, 32) != [] && Right(data, 32)[0] == 0
    ensures IntegrityHolds(data, md5hex)
  {
    assert UpToNul(Right(data, 32)) == [];
    ContainsEmpty(UpToNul(md5hex(Left(data, |data| - 32))));
  }

  /** A zero-filled file of any length passes, and so is kept and loaded. */
  lemma ZeroFilledFilePasses(n: nat, md5hex: Bytes -> Bytes)
    requires n > 0
    ensures IntegrityHolds(Zeros(n), md5hex)
  {
    NulTrailerPasses(Zeros(n), md5hex);
  }

  /** A file shorter than 32 bytes is compared with the digest of nothing: it passes whenever
      its content up to the first NUL occurs in that digest. In particular the empty content
      (a missing file) and any content starting with a NUL always pass, and so does a one-byte
      file holding a character of that digest. */
  lemma IntegrityOfShortFile(data: Bytes, md5hex: Bytes -> Bytes)
    requires |data| < 32
    ensures IntegrityHolds(data, md5hex) <==> Contains(UpToNul(md5hex([])), UpToNul(data))
    ensures data == [] || data[0] == 0 ==> IntegrityHolds(data, md5hex)
    ensures |md5hex([])| > 0 && md5hex([])[0] != 0 && data == [md5hex([])[0]] ==> IntegrityHolds(data, md5hex)
  {
    assert Left(data, |data| - 32) == [];
    if data == [] || data[0] == 0 {
      assert UpToNul(data) == [];
      ContainsEmpty(UpToNul(md5hex([])));
    }
    if |md5hex([])| > 0 && md5hex([])[0] != 0 && data == [md5hex([])[0]] {
      var digest := UpToNul(md5hex([]));
      assert UpToNul(data) == data;
      assert digest[0] == md5hex([])[0];
      assert OccursAt(digest, data, 0);
      ContainsAt(digest, data, 0);
    }
  }

  // ---------------------------------------------------------------------------------------
  // Reading
  // ---------------------------------------------------------------------------------------

  /**
   * QDataStream::readRawData(len) on the unread part `rest` of the file: up to len bytes,
   * fewer at the end. The length is an int: a quint32 above INT_MAX turns negative and
   * nothing is read.
   */
  function ReadRaw(rest: Bytes, n: nat): (r: Bytes)
    ensures |r| <= n && |r| <= |rest| && r == rest[..|r|]
    ensures n <= INT_MAX && n <= |rest| ==> |r| == n
    ensures n <= INT_MAX && n > |rest| ==> r == rest
    ensures n > INT_MAX ==> r == []
  {
    var count := if n <= INT_MAX then n else 0;
    if count <= |rest| then rest[..count] else rest
  }

  /** What is left unread after readRawData(len): the stream is the bytes read, then this. */
  function Skip(rest: Bytes, n: nat): (r: Bytes)
    ensures ReadRaw(rest, n) + r == rest
  {
    rest[|ReadRaw(rest, n)|..]
  }

  /** A zero-initialised quint32 after readData(&v, 4). */
  function Word(rest: Bytes): u32
  {
    OverwriteU32(0, ReadRaw(rest, 4))
  }

  /** CACHED_LINK_TABLE[index] for every record, or None if an index lies past the table
      (the loader does not check; C++ would read outside the array). */
  function Relink(links: seq<LinkRecord>): (r: Option<seq<LinkedCall>>)
    ensures r.Some? <==> forall i :: 0 <= i < |links| ==> links[i].index < |Table|
    ensures r.Some? ==> |r.value| == |links|
    ensures r.Some? ==> forall i :: 0 <= i < |links| ==>
              Lookup(Table, links[i].index) == Some(r.value[i].target) && r.value[i].offset == links[i].offset
  {
    if links == [] then Some([])
    else if links[0].index >= |Table| then None
    else match Relink(links[1..])
      case None => None
      case Some(rest) => Some([LinkedCall(links[0].offset, Table[links[0].index])] + rest)
  }

  datatype RecordRead =
    | RecordRead(fn: RestoredFunction, rest: Bytes)
    | RecordMismatch   // the stored identity is not contained in the live one: fall back to runAll
    | RecordUndefined  // the C++ reader would use memory it never filled, or index past the table

  /**
   * One function record at the front of `rest`, checked against the hash string `liveId` of
   * the live function.
   * The identity length is read into an uninitialised word, so a short read there is
   * undefined; the stored identity is used as a C string, so it must hold a NUL among the
   * bytes read.
   */
  function ParseRecord(rest: Bytes, liveId: Bytes): (r: RecordRead)
  {
    var w := ReadRaw(rest, 4);
    if |w| < 4 then RecordUndefined
    else
      var r1 := Skip(rest, 4);
      var idBytes := ReadRaw(r1, DecodeU32(w));
      match CString(idBytes)
      case None => RecordUndefined
      case Some(stored) =>
        if !Contains(liveId, stored) then RecordMismatch
        else ParseBody(Skip(r1, DecodeU32(w)))
  }

  /** `b` filled up to n bytes with zeros: a value-initialised buffer after a short read. */
  function Pad(b: Bytes, n: nat): (r: Bytes)
    requires |b| <= n
    ensures |r| == n && r[..|b|] == b && forall i :: |b| <= i < n ==> r[i] == 0
  {
    b + Zeros(n - |b|)
  }

  /** The code of a record: its length word and that many bytes, and what follows. None when
      the read comes up short: the rest of the buffer is uninitialised. */
  function ReadCode(rest: Bytes): (r: Option<(Bytes, Bytes)>)
    ensures r.Some? ==> r.value.0 + r.value.1 == Skip(rest, 4)
  {
    var len := Word(rest);
    var r1 := Skip(rest, 4);
    var code := ReadRaw(r1, len);
    if |code| < len then None else Some((code, Skip(r1, len)))
  }

  /** A count word and that many eight-byte records, zero-filled past the end of the data:
      the count, the padded bytes and what follows. None when their byte size does not fit
      the int-sized read. */
  function ReadBlock(rest: Bytes): (r: Option<(nat, Bytes, Bytes)>)
    ensures r.Some? ==> |r.value.1| == 8 * r.value.0 && |r.value.2| <= |rest|
  {
    var count := Word(rest);
    var r1 := Skip(rest, 4);
    if 8 * count > INT_MAX then None
    else
      var b := ReadRaw(r1, 8 * count);
      Some((count as nat, Pad(b, 8 * count), Skip(r1, 8 * count)))
  }

  /** The link records of a record. */
  function ReadLinks(rest: Bytes): (r: Option<(seq<LinkRecord>, Bytes)>)
  {
    match ReadBlock(rest)
    case None => None
    case Some((count, b, next)) => Some((DecodeLinks(b, count), next))
  }

  /** The constants of a record, read like the link records. */
  function ReadConstants(rest: Bytes): (r: Option<(seq<Primitive>, Bytes)>)
  {
    match ReadBlock(rest)
    case None => None
    case Some((count, b, next)) => Some((DecodePrimitives(b, count), next))
  }

  /** The rest of a record after the identity: code, link records, constants; then relinking. */
  function ParseBody(rest: Bytes): (r: RecordRead)
  {
    match ReadCode(rest)
    case None => RecordUndefined
    case Some((code, r1)) =>
      match ReadLinks(r1)
      case None => RecordUndefined
      case Some((links, r2)) =>
        match ReadConstants(r2)
        case None => RecordUndefined
        case Some((constants, r3)) =>
          match Relink(links)
          case None => RecordUndefined
          case Some(calls) => RecordRead(RestoredFunction(code, calls, constants), r3)
  }

  datatype RecordsRead =
    | RecordsRead(fns: seq<RestoredFunction>, rest: Bytes)
    | RecordsMismatch(index: nat)
    | RecordsUndefined

  /** One record per live function (given by its hash string), in order, stopping at the
      first mismatch or undefined read. */
  function ParseRecords(rest: Bytes, live: seq<Bytes>): RecordsRead
    decreases |live|
  {
    if live == [] then RecordsRead([], rest)
    else match ParseRecord(rest, live[0])
      case RecordMismatch => RecordsMismatch(0)
      case RecordUndefined => RecordsUndefined
      case RecordRead(fn, next) => Prepend([fn], ParseRecords(next, live[1..]))
  }

  /** The records read so far, put in front of what reading the remaining ones gives. */
  function Prepend(fns: seq<RestoredFunction>, r: RecordsRead): (p: RecordsRead)
  {
    match r
    case RecordsRead(more, end) => RecordsRead(fns + more, end)
    case RecordsMismatch(i) => RecordsMismatch(|fns| + i)
    case RecordsUndefined => RecordsUndefined
  }

  /** The hash string of every live function, as the load path builds it. */
  function HashStrings(live: seq<FunctionIdentity>): seq<Bytes>
  {
    seq(|live|, i requires 0 <= i < |live| => LoadIdentity(live[i]))
  }

  /** A records read that restores `n` functions when it restores any, and whose mismatch,
      if any, names one of `n` functions. */
  predicate CountedFor(r: RecordsRead, n: nat)
  {
    (r.RecordsRead? ==> |r.fns| == n) && (r.RecordsMismatch? ==> r.index < n)
  }

  lemma CountedStep(rest: Bytes, live: seq<Bytes>)
    requires live != []
    requires var first := ParseRecord(rest, live[0]);
             first.RecordRead? ==> CountedFor(ParseRecords(first.rest, live[1..]), |live| - 1)
    ensures CountedFor(ParseRecords(rest, live), |live|)
  {
  }

  /** The records reader restores one function per live function, and a mismatch names one
      of them. */
  lemma {:induction false} ParseRecordsCounts(rest: Bytes, live: seq<Bytes>)
    ensures CountedFor(ParseRecords(rest, live), |live|)
    decreases |live|
  {
    if live != [] {
      var first := ParseRecord(rest, live[0]);
      if first.RecordRead? {
        ParseRecordsCounts(first.rest, live[1..]);
      }
      CountedStep(rest, live);
    }
  }

  datatype LoadResult =
    | Restored(fns: seq<RestoredFunction>, unit: Option<Bytes>)   // unit: the data attached, if any
    | IdentityMismatch(index: nat)
    | LoadUndefined

  /**
   * The load path over the whole file content (trailer included). The recorded name and mtime
   * are read and not used. The unit size is always read; the unit is attached only when there
   * is at least one function, and then a zero size (an allocation of nothing used as a unit)
   * or a short read is undefined.
   */
  function ParseCache(data: Bytes, live: seq<FunctionIdentity>): (r: LoadResult)
    ensures r.Restored? ==> |r.fns| == |live| && (r.unit.Some? <==> |live| > 0)
    ensures r.IdentityMismatch? ==> r.index < |live|
  {
    var records := Skip(Skip(Skip(data, 4), Word(data)), 4);
    ParseRecordsCounts(records, HashStrings(live));
    match ParseRecords(records, HashStrings(live))
    case RecordsMismatch(i) => IdentityMismatch(i)
    case RecordsUndefined => LoadUndefined
    case RecordsRead(fns, q) =>
      var size := Word(q);
      var blob := if size > 0 then ReadRaw(Skip(q, 4), size) else [];
      if |live| == 0 then Restored(fns, None)
      else if size == 0 || |blob| < size then LoadUndefined
      else Restored(fns, Some(blob))
  }

  // ---------------------------------------------------------------------------------------
  // The directory gate's view of a file
  // ---------------------------------------------------------------------------------------

  datatype GateRecord =
    | EmptyName                          // recorded name length 0: the file is skipped
    | Recorded(path: Bytes, mtime: u32)  // the recorded source path (as a C string) and mtime
    | UnreadablePath                     // no NUL among the name bytes read: undefined

  /** The gate reads the name length, that many bytes, and the mtime, and uses the name bytes
      as a C string. */
  function ReadGateRecord(data: Bytes): GateRecord
  {
    var nameLen := Word(data);
    if nameLen == 0 then EmptyName
    else
      var r1 := Skip(data, 4);
      var nameBytes := ReadRaw(r1, nameLen);
      var mtime := Word(Skip(r1, nameLen));
      match CString(nameBytes)
      case None => UnreadablePath
      case Some(path) => Recorded(path, mtime)
  }

  // ---------------------------------------------------------------------------------------
  // Reading back what was written
  // ---------------------------------------------------------------------------------------

  /** Code the format can carry unchanged: lengths that fit the int-sized reads, and link
      indices that lie inside the table. */
  predicate Storable(c: CompiledCode)
  {
    |c.code| <= INT_MAX && 8 * |c.links| <= INT_MAX && 8 * |c.constants| <= INT_MAX &&
    forall i :: 0 <= i < |c.links| ==> c.links[i].index < |Table|
  }

  /** A function the loader rebuilds from stored code: the code, every call relinked through
      the table, the constants. */
  function Restore(c: CompiledCode): (r: RestoredFunction)
    requires Storable(c)
    ensures r.code == c.code && r.constants == c.constants && |r.calls| == |c.links|
    ensures forall i :: 0 <= i < |c.links| ==>
              r.calls[i] == LinkedCall(c.links[i].offset, Table[c.links[i].index])
  {
    RestoredFunction(c.code, Relink(c.links).value, c.constants)
  }

  /** Concatenation regrouped to the right, the way the readers consume it. */
  lemma Regroup(a: Bytes, b: Bytes, c: Bytes)
    ensures (a + b) + c == a + (b + c)
  {
  }

  /** Stored bytes read back as themselves, and the stream moves past them. */
  lemma ReadStored(seg: Bytes, tail: Bytes)
    requires |seg| <= INT_MAX
    ensures ReadRaw(seg + tail, |seg|) == seg && Skip(seg + tail, |seg|) == tail
  {
    assert (seg + tail)[..|seg|] == seg;
  }

  /** A stored word reads back as its value. */
  lemma WordStored(n: u32, tail: Bytes)
    ensures Word(EncodeU32(n) + tail) == n && Skip(EncodeU32(n) + tail, 4) == tail
  {
    ReadStored(EncodeU32(n), tail);
    DecodeEncodeU32(n);
  }

  /** The record reader goes on with the body once the identity it read passes. */
  lemma ParseRecordOfParts(rest: Bytes, liveId: Bytes, n: nat, stored: Bytes, r2: Bytes)
    requires |ReadRaw(rest, 4)| == 4 && DecodeU32(ReadRaw(rest, 4)) == n
    requires CString(ReadRaw(Skip(rest, 4), n)) == Some(stored) && Skip(Skip(rest, 4), n) == r2
    requires Contains(liveId, stored)
    ensures ParseRecord(rest, liveId) == ParseBody(r2)
  {
  }

  /** A stored identity reads back as itself and passes the test for its own function, and
      the reader goes on with the body. */
  /** A stored identity, behind its length word and ended by its NUL, reads back whole. */
  lemma StoredIdentityRead(id: Bytes, tail: Bytes)
    requires 0 !in id && |id| < INT_MAX
    ensures var rest := EncodeU32(|id| + 1) + ((id + [0]) + tail);
            |ReadRaw(rest, 4)| == 4 && DecodeU32(ReadRaw(rest, 4)) == |id| + 1 &&
            CString(ReadRaw(Skip(rest, 4), |id| + 1)) == Some(id) && Skip(Skip(rest, 4), |id| + 1) == tail
  {
    ReadStored(EncodeU32(|id| + 1), (id + [0]) + tail);
    DecodeEncodeU32(|id| + 1);
    ReadStored(id + [0], tail);
    CStringOfTerminated(id, []);
    assert id + [0] + [] == id + [0];
  }

  /** A record whose stored identity the live identity contains reads on into its body. */
  lemma StoredIdentityRecord(id: Bytes, liveId: Bytes, tail: Bytes)
    requires 0 !in id && |id| < INT_MAX && Contains(liveId, id)
    ensures ParseRecord(EncodeU32(|id| + 1) + ((id + [0]) + tail), liveId) == ParseBody(tail)
  {
    StoredIdentityRead(id, tail);
    ParseRecordOfParts(EncodeU32(|id| + 1) + ((id + [0]) + tail), liveId, |id| + 1, id, tail);
  }

  /** The identity a function is saved under passes the load-time test for that function. */
  lemma IdentityMatchesItself(f: FunctionIdentity)
    requires 0 !in f.name
    ensures 0 !in SaveIdentity(f) && Contains(LoadIdentity(f), SaveIdentity(f))
  {
    ContainsSameLength(LoadIdentity(f), SaveIdentity(f));
  }

  /** Stored code reads back as itself. */
  lemma ReadCodeOfEncoded(code: Bytes, tail: Bytes)
    requires |code| <= INT_MAX
    ensures ReadCode(EncodeSized(code) + tail) == Some((code, tail))
  {
    Regroup(EncodeU32(|code|), code, tail);
    WordStored(|code|, code + tail);
    ReadStored(code, tail);
  }

  /** A stored block reads back as its count and bytes. */
  lemma ReadBlockOfEncoded(n: nat, seg: Bytes, tail: Bytes)
    requires |seg| == 8 * n <= INT_MAX
    ensures ReadBlock(EncodeU32(n) + (seg + tail)) == Some((n, seg, tail))
  {
    WordStored(n, seg + tail);
    ReadStored(seg, tail);
    assert Pad(seg, 8 * n) == seg;
  }

  /** Stored link records read back as themselves. */
  lemma ReadLinksOfEncoded(links: seq<LinkRecord>, tail: Bytes)
    requires 8 * |links| <= INT_MAX
    ensures ReadLinks(EncodeU32(|links|) + (EncodeLinks(links) + tail)) == Some((links, tail))
  {
    ReadBlockOfEncoded(|links|, EncodeLinks(links), tail);
    DecodeEncodeLinks(links);
  }

  /** Stored constants read back as themselves. */
  lemma ReadConstantsOfEncoded(ps: seq<Primitive>, tail: Bytes)
    requires 8 * |ps| <= INT_MAX
    ensures ReadConstants(EncodeU32(|ps|) + (EncodePrimitives(ps) + tail)) == Some((ps, tail))
  {
    ReadBlockOfEncoded(|ps|, EncodePrimitives(ps), tail);
    DecodeEncodePrimitives(ps);
  }

  /** The body reader assembles what its three readers return. */
  lemma ParseBodyOfParts(rest: Bytes, code: Bytes, links: seq<LinkRecord>, constants: seq<Primitive>,
                         r1: Bytes, r2: Bytes, r3: Bytes)
    requires ReadCode(rest) == Some((code, r1)) && ReadLinks(r1) == Some((links, r2))
    requires ReadConstants(r2) == Some((constants, r3)) && Relink(links).Some?
    ensures ParseBody(rest) == RecordRead(RestoredFunction(code, Relink(links).value, constants), r3)
  {
  }

  /** A stored body reads back as the code relinked, and the reader goes on after it. */
  lemma ParseBodyOfEncoded(c: CompiledCode, tail: Bytes)
    requires Storable(c)
    ensures ParseBody(EncodeBody(c) + tail) == RecordRead(Restore(c), tail)
  {
    var r2 := EncodeU32(|c.constants|) + (EncodePrimitives(c.constants) + tail);
    var r1 := EncodeU32(|c.links|) + (EncodeLinks(c.links) + r2);
    assert EncodeBody(c) + tail == EncodeSized(c.code) + r1;
    ReadCodeOfEncoded(c.code, r1);
    ReadLinksOfEncoded(c.links, r2);
    ReadConstantsOfEncoded(c.constants, tail);
    ParseBodyOfParts(EncodeBody(c) + tail, c.code, c.links, c.constants, r1, r2, tail);
  }

  /** A stored record regrouped as its identity length, its identity and what follows it. */
  lemma RecordRegrouped(id: Bytes, c: CompiledCode, tail: Bytes)
    requires |id| < INT_MAX
    ensures EncodeRecord(id, c) + tail == EncodeU32(|id| + 1) + ((id + [0]) + (EncodeBody(c) + tail))
  {
    Regroup(EncodeU32(|id| + 1), (id + [0]) + EncodeBody(c), tail);
    Regroup(id + [0], EncodeBody(c), tail);
  }

  /** The identity then the body of a stored record read back as the code relinked, for a
      live function whose identity string contains the stored one. */
  lemma RecordReadBack(id: Bytes, liveId: Bytes, c: CompiledCode, tail: Bytes)
    requires Storable(c) && 0 !in id && |id| < INT_MAX && Contains(liveId, id)
    ensures ParseRecord(EncodeU32(|id| + 1) + ((id + [0]) + (EncodeBody(c) + tail)), liveId) ==
            RecordRead(Restore(c), tail)
  {
    StoredIdentityRecord(id, liveId, EncodeBody(c) + tail);
    ParseBodyOfEncoded(c, tail);
  }

  /** A record the save path wrote under identity string `id` reads back, for any live
      function whose identity string contains `id`, as its code relinked, and the reader goes
      on after the record. */
  lemma ParseRecordOfEncoded(id: Bytes, liveId: Bytes, c: CompiledCode, tail: Bytes)
    requires Storable(c) && 0 !in id && |id| < INT_MAX && Contains(liveId, id)
    ensures ParseRecord(EncodeRecord(id, c) + tail, liveId) == RecordRead(Restore(c), tail)
  {
    RecordRegrouped(id, c, tail);
    RecordReadBack(id, liveId, c, tail);
  }

  /** Every function restored from its stored code. */
  function RestoreAll(cs: seq<CompiledCode>): seq<RestoredFunction>
    requires forall i :: 0 <= i < |cs| ==> Storable(cs[i])
  {
    seq(|cs|, i requires 0 <= i < |cs| => Restore(cs[i]))
  }

  lemma RestoreAllCons(cs: seq<CompiledCode>)
    requires |cs| > 0 && forall i :: 0 <= i < |cs| ==> Storable(cs[i])
    ensures RestoreAll(cs) == [Restore(cs[0])] + RestoreAll(cs[1..])
  {
  }

  /** The records reader puts a record read in front of those read after it. */
  lemma ParseRecordsStep(rest: Bytes, live: seq<Bytes>, fn: RestoredFunction, next: Bytes,
                         fns: seq<RestoredFunction>, end: Bytes)
    requires live != [] && ParseRecord(rest, live[0]) == RecordRead(fn, next)
    requires ParseRecords(next, live[1..]) == RecordsRead(fns, end)
    ensures ParseRecords(rest, live) == RecordsRead([fn] + fns, end)
  {
  }

  /** The stored records are the first record followed by the others. */
  lemma RecordsCons(ids: seq<Bytes>, cs: seq<CompiledCode>, tail: Bytes)
    requires |ids| == |cs| && ids != []
    ensures EncodeRecords(ids, cs) + tail ==
            EncodeRecord(ids[0], cs[0]) + (EncodeRecords(ids[1..], cs[1..]) + tail)
  {
    var blocks := RecordBlocks(ids, cs);
    assert blocks[1..] == RecordBlocks(ids[1..], cs[1..]);
    Regroup(EncodeRecord(ids[0], cs[0]), EncodeRecords(ids[1..], cs[1..]), tail);
  }

  /** The first of several stored records reads back on its own. */
  lemma FirstRecordRead(ids: seq<Bytes>, liveIds: seq<Bytes>, cs: seq<CompiledCode>, tail: Bytes)
    requires |ids| == |cs| == |liveIds| && ids != []
    requires Storable(cs[0]) && 0 !in ids[0] && |ids[0]| < INT_MAX && Contains(liveIds[0], ids[0])
    ensures ParseRecord(EncodeRecords(ids, cs) + tail, liveIds[0]) ==
            RecordRead(Restore(cs[0]), EncodeRecords(ids[1..], cs[1..]) + tail)
  {
    RecordsCons(ids, cs, tail);
    ParseRecordOfEncoded(ids[0], liveIds[0], cs[0], EncodeRecords(ids[1..], cs[1..]) + tail);
  }

  /** Stored records that can round-trip, for live functions whose identity strings contain
      the stored ones. */
  predicate RecordsRoundTrip(ids: seq<Bytes>, liveIds: seq<Bytes>, cs: seq<CompiledCode>)
  {
    |ids| == |cs| == |liveIds| &&
    forall i :: 0 <= i < |ids| ==>
      Storable(cs[i]) && 0 !in ids[i] && |ids[i]| < INT_MAX && Contains(liveIds[i], ids[i])
  }

  /** The records after the first round-trip as well. */
  lemma RecordsRoundTripTail(ids: seq<Bytes>, liveIds: seq<Bytes>, cs: seq<CompiledCode>)
    requires RecordsRoundTrip(ids, liveIds, cs) && ids != []
    ensures RecordsRoundTrip(ids[1..], liveIds[1..], cs[1..])
    ensures Storable(cs[0]) && 0 !in ids[0] && |ids[0]| < INT_MAX && Contains(liveIds[0], ids[0])
  {
    assert forall i :: 0 <= i < |ids| - 1 ==> ids[1..][i] == ids[i + 1] && cs[1..][i] == cs[i + 1] &&
                                              liveIds[1..][i] == liveIds[i + 1];
  }

  /** One more record in front of records that read back reads back too. */
  lemma RecordsOfEncodedStep(ids: seq<Bytes>, liveIds: seq<Bytes>, cs: seq<CompiledCode>, tail: Bytes)
    requires RecordsRoundTrip(ids, liveIds, cs) && ids != []
    requires RecordsRoundTrip(ids[1..], liveIds[1..], cs[1..])
    requires Storable(cs[0]) && 0 !in ids[0] && |ids[0]| < INT_MAX && Contains(liveIds[0], ids[0])
    requires ParseRecords(EncodeRecords(ids[1..], cs[1..]) + tail, liveIds[1..]) == RecordsRead(RestoreAll(cs[1..]), tail)
    ensures ParseRecords(EncodeRecords(ids, cs) + tail, liveIds) == RecordsRead(RestoreAll(cs), tail)
  {
    var later := EncodeRecords(ids[1..], cs[1..]);
    FirstRecordRead(ids, liveIds, cs, tail);
    ParseRecordsStep(EncodeRecords(ids, cs) + tail, liveIds, Restore(cs[0]), later + tail,
                     RestoreAll(cs[1..]), tail);
    RestoreAllCons(cs);
  }

  /** Records written under identity strings `ids` read back, in order, as their code
      relinked, for live functions whose identity strings contain the stored ones. */
  lemma {:induction false} ParseRecordsOfEncoded(ids: seq<Bytes>, liveIds: seq<Bytes>,
                                                  cs: seq<CompiledCode>, tail: Bytes)
    requires RecordsRoundTrip(ids, liveIds, cs)
    ensures ParseRecords(EncodeRecords(ids, cs) + tail, liveIds) == RecordsRead(RestoreAll(cs), tail)
    decreases |ids|
  {
    if ids != [] {
      RecordsRoundTripTail(ids, liveIds, cs);
      ParseRecordsOfEncoded(ids[1..], liveIds[1..], cs[1..], tail);
      RecordsOfEncodedStep(ids, liveIds, cs, tail);
    }
  }

  /** Every function's saved identity passes the load-time test for that same function. */
  lemma LiveIdentitiesMatch(fs: seq<FunctionIdentity>)
    requires forall i :: 0 <= i < |fs| ==> 0 !in fs[i].name
    ensures forall i :: 0 <= i < |fs| ==>
              0 !in SavedIdentities(fs)[i] && Contains(HashStrings(fs)[i], SavedIdentities(fs)[i])
  {
    forall i | 0 <= i < |fs|
      ensures 0 !in SavedIdentities(fs)[i] && Contains(HashStrings(fs)[i], SavedIdentities(fs)[i])
    {
      IdentityMatchesItself(fs[i]);
    }
  }

  /** Whether a module can round-trip through the cache: a URL that fits the int-sized read,
      functions that round-trip, and unit data that is written at all. */
  predicate RoundTrips(url: Bytes, fs: seq<FunctionIdentity>, cs: seq<CompiledCode>, unit: Bytes)
  {
    7 <= |url| <= INT_MAX && |fs| == |cs| && 0 < |unit| <= INT_MAX &&
    forall i :: 0 <= i < |fs| ==> Storable(cs[i]) && 0 !in fs[i].name && |SaveIdentity(fs[i])| < INT_MAX
  }

  /** The loader skips a stored header exactly: name length, name bytes, mtime. */
  lemma HeaderSkipped(url: Bytes, mtime: int, beyond: Bytes, tail: Bytes)
    requires 7 <= |url| <= INT_MAX && |beyond| == 6
    ensures var data := EncodeHeader(url, mtime, beyond) + tail;
            Skip(Skip(Skip(data, 4), Word(data)), 4) == tail
  {
    var nameBytes := url[7..] + [0] + beyond;
    var data := EncodeHeader(url, mtime, beyond) + tail;
    Regroup(EncodeU32(|url|), nameBytes + EncodeU32(ToU32(mtime)), tail);
    Regroup(nameBytes, EncodeU32(ToU32(mtime)), tail);
    WordStored(|url|, nameBytes + (EncodeU32(ToU32(mtime)) + tail));
    ReadStored(nameBytes, EncodeU32(ToU32(mtime)) + tail);
    ReadStored(EncodeU32(ToU32(mtime)), tail);
  }

  /** Stored unit data reads back as its size and its bytes. */
  lemma UnitReadBack(unit: Bytes, tail: Bytes)
    requires 0 < |unit| <= INT_MAX
    ensures var q := EncodeUnit(unit) + tail;
            Word(q) == |unit| && ReadRaw(Skip(q, 4), |unit|) == unit
  {
    Regroup(EncodeU32(|unit|), unit, tail);
    WordStored(|unit|, unit + tail);
    ReadStored(unit, tail);
  }

  /** Once the records read back, the loader attaches the unit data whose size and bytes
      follow them. */
  lemma ParseCacheOfRecords(data: Bytes, live: seq<FunctionIdentity>, fns: seq<RestoredFunction>,
                            unit: Bytes, trailer: Bytes)
    requires 0 < |unit| <= INT_MAX
    requires ParseRecords(Skip(Skip(Skip(data, 4), Word(data)), 4), HashStrings(live)) ==
             RecordsRead(fns, EncodeUnit(unit) + trailer)
    ensures ParseCache(data, live) == Restored(fns, if |live| > 0 then Some(unit) else None)
  {
    UnitReadBack(unit, trailer);
  }

  /** The records of a saved payload start right after its header. */
  lemma RecordsAfterHeader(url: Bytes, mtime: int, beyond: Bytes, fs: seq<FunctionIdentity>,
                           cs: seq<CompiledCode>, unit: Bytes, trailer: Bytes)
    requires |beyond| == 6 && 7 <= |url| <= INT_MAX && |fs| == |cs|
    ensures var data := EncodePayload(url, mtime, beyond, fs, cs, unit) + trailer;
            Skip(Skip(Skip(data, 4), Word(data)), 4) ==
            EncodeRecords(SavedIdentities(fs), cs) + (EncodeUnit(unit) + trailer)
  {
    var records := EncodeRecords(SavedIdentities(fs), cs);
    Regroup(EncodeHeader(url, mtime, beyond), records + EncodeUnit(unit), trailer);
    Regroup(records, EncodeUnit(unit), trailer);
    HeaderSkipped(url, mtime, beyond, records + (EncodeUnit(unit) + trailer));
  }

  /**
   * Loading a file the save path wrote, for the same live functions, restores every
   * function's code with its calls relinked through the table, and attaches the stored unit
   * data when there is at least one function. The checksum trailer is never read.
   */
  lemma LoadAfterSave(url: Bytes, mtime: int, beyond: Bytes, fs: seq<FunctionIdentity>,
                      cs: seq<CompiledCode>, unit: Bytes, trailer: Bytes)
    requires |beyond| == 6 && RoundTrips(url, fs, cs, unit)
    ensures ParseCache(EncodePayload(url, mtime, beyond, fs, cs, unit) + trailer, fs) ==
            Restored(RestoreAll(cs), if |fs| > 0 then Some(unit) else None)
  {
    RecordsAfterHeader(url, mtime, beyond, fs, cs, unit, trailer);
    LiveIdentitiesMatch(fs);
    ParseRecordsOfEncoded(SavedIdentities(fs), HashStrings(fs), cs, EncodeUnit(unit) + trailer);
    ParseCacheOfRecords(EncodePayload(url, mtime, beyond, fs, cs, unit) + trailer, fs,
                        RestoreAll(cs), unit, trailer);
  }

  /** Four bytes whose last is not NUL read as a word of at least 2^24. */
  lemma WordOfNonNul(rest: Bytes)
    requires |rest| >= 4 && rest[3] != 0
    ensures Word(rest) >= 0x100_0000
  {
    var w := rest[..4];
    assert ReadRaw(rest, 4) == w;
    assert w[1..][1..][1..] == [rest[3]];
    assert ValueOf(w[1..][1..][1..]) >= 1;
    assert ValueOf(w[1..][1..]) >= 256;
    assert ValueOf(w[1..]) >= 256 * 256;
    assert Word(rest) == DecodeU32(w) == ValueOf(w);
  }

  /** When the word after the records promises more bytes than remain, a module with
      functions does not load. */
  lemma ParseCacheOfShortUnit(data: Bytes, live: seq<FunctionIdentity>, fns: seq<RestoredFunction>,
                              q: Bytes)
    requires |live| > 0 && Word(q) > |q|
    requires ParseRecords(Skip(Skip(Skip(data, 4), Word(data)), 4), HashStrings(live)) == RecordsRead(fns, q)
    ensures ParseCache(data, live) == LoadUndefined
  {
  }

  /**
   * The unit size is written only when it is not 0, but always read: after a save with empty
   * unit data, the loader takes the first four characters of the checksum as the unit size.
   * Hex digits are never NUL, so that size is at least 2^24 while 28 bytes remain: a module
   * with functions saved this way never loads.
   */
  lemma EmptyUnitNeverLoads(url: Bytes, mtime: int, beyond: Bytes, fs: seq<FunctionIdentity>,
                            cs: seq<CompiledCode>, trailer: Bytes)
    requires |beyond| == 6 && 7 <= |url| <= INT_MAX && |fs| == |cs| && |fs| > 0
    requires forall i :: 0 <= i < |fs| ==> Storable(cs[i]) && 0 !in fs[i].name && |SaveIdentity(fs[i])| < INT_MAX
    requires |trailer| == 32 && 0 !in trailer
    ensures ParseCache(EncodePayload(url, mtime, beyond, fs, cs, []) + trailer, fs) == LoadUndefined
  {
    RecordsAfterHeader(url, mtime, beyond, fs, cs, [], trailer);
    assert EncodeUnit([]) + trailer == trailer;
    LiveIdentitiesMatch(fs);
    ParseRecordsOfEncoded(SavedIdentities(fs), HashStrings(fs), cs, trailer);
    WordOfNonNul(trailer);
    ParseCacheOfShortUnit(EncodePayload(url, mtime, beyond, fs, cs, []) + trailer, fs,
                          RestoreAll(cs), trailer);
  }

  /** The recorded name length covers the whole URL, "file://" included, while the bytes come
      from the path without it; the NUL the path carries still ends the name where it should,
      so the gate reads back exactly the path and the low word of the mtime. */
  lemma GateReadsSavedHeader(url: Bytes, mtime: int, beyond: Bytes, tail: Bytes)
    requires 7 <= |url| <= INT_MAX && |beyond| == 6 && 0 !in url[7..]
    ensures ReadGateRecord(EncodeHeader(url, mtime, beyond) + tail) == Recorded(url[7..], ToU32(mtime))
  {
    var nameBytes := url[7..] + [0] + beyond;
    var data := EncodeHeader(url, mtime, beyond) + tail;
    Regroup(EncodeU32(|url|), nameBytes + EncodeU32(ToU32(mtime)), tail);
    Regroup(nameBytes, EncodeU32(ToU32(mtime)), tail);
    WordStored(|url|, nameBytes + (EncodeU32(ToU32(mtime)) + tail));
    ReadStored(nameBytes, EncodeU32(ToU32(mtime)) + tail);
    WordStored(ToU32(mtime), tail);
    CStringOfTerminated(url[7..], beyond);
  }

  /** The identity test is containment: a stored identity passes for any live function whose
      identity string contains it, such as the record of `f` at line 1, column 2 ("f12") for a
      live function `xf` at line 12, column 5 ("xf125"). */
  lemma IdentityIsContainment()
    ensures var stored := SaveIdentity(FunctionIdentity(['f' as int as byte], 1, 2));
            var live := FunctionIdentity(['x' as int as byte, 'f' as int as byte], 12, 5);
            stored != LoadIdentity(live) && Contains(LoadIdentity(live), stored)
  {
    var stored := SaveIdentity(FunctionIdentity(['f' as int as byte], 1, 2));
    var live := FunctionIdentity(['x' as int as byte, 'f' as int as byte], 12, 5);
    assert NumberText(1) == [Digit(1)];
    assert NumberText(2) == [Digit(2)];
    assert NumberText(5) == [Digit(5)];
    assert NumberText(12) == [Digit(1), Digit(2)];
    assert LoadIdentity(live)[1..4] == stored;
    assert OccursAt(LoadIdentity(live), stored, 1);
    ContainsAt(LoadIdentity(live), stored, 1);
  }
}
