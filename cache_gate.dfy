/**
 * The one-shot check of the cache directory that compile() runs while the engine's cache
 * state is UNTESTED: every listed cache file's recorded source path and mtime are compared
 * with the source on disk. A cache file whose source is gone is removed on its own; the first
 * cache file whose recorded mtime differs from the source's ends the scan, marks the cache
 * INVALID and removes every listed file; otherwise the cache is VALID.
 *
 * The directory is a map from file name to content; the listing (QDir::entryList, which also
 * names "." and "..") is a parameter, and so are the sources on disk with their st_mtime.
 */
module CacheGate {
  import opened Options
  import opened ByteCodec
  import opened UnitCacheFormat
  import opened UnitCache

  /** The engine's qmlCacheValid. */
  datatype CacheState = Untested | Valid | Invalid

  /** The part of the QML engine the cache touches. */
  class Engine {
    var qmlCacheValid: CacheState

    constructor ()
      ensures qmlCacheValid == Untested
    {
      qmlCacheValid := Untested;
    }
  }

  /** The cache directory: the files in it, by name. */
  class CacheDirectory {
    var files: map<Bytes, Bytes>

    constructor (files: map<Bytes, Bytes>)
      ensures this.files == files
    {
      this.files := files;
    }
  }

  /** What the scan makes of one listed name. */
  datatype Verdict =
    | Kept         // not a file that opens, no recorded name, or a source whose mtime matches
    | Orphaned     // the recorded source does not exist: this cache file is removed
    | Stale        // the recorded mtime differs from the source's: the cache is invalid
    | Unreadable   // no NUL in the recorded name bytes: stat() reads past them, undefined

  /** The verdict on the listed name `name` in a directory holding `files`, for the sources
      on disk `sources` (path to st_mtime). The mtime comparison is on the low 32 bits. */
  function FileVerdict(files: map<Bytes, Bytes>, name: Bytes, sources: map<Bytes, int>): (v: Verdict)
    ensures name !in files ==> v == Kept
  {
    if name !in files then Kept
    else match ReadGateRecord(files[name])
      case EmptyName => Kept
      case UnreadablePath => Unreadable
      case Recorded(path, mtime) =>
        if path !in sources then Orphaned
        else if mtime != ToU32(sources[path]) then Stale
        else Kept
  }

  datatype ScanResult =
    | Scanned(valid: bool, files: map<Bytes, Bytes>)
    | ScanUndefined

  /** The scan over the listing, in order: the directory it leaves behind, and whether it
      ran to the end without meeting a stale file. */
  function Scan(listing: seq<Bytes>, files: map<Bytes, Bytes>, sources: map<Bytes, int>): ScanResult
    decreases |listing|
  {
    if listing == [] then Scanned(true, files)
    else match FileVerdict(files, listing[0], sources)
      case Kept => Scan(listing[1..], files, sources)
      case Orphaned => Scan(listing[1..], files - {listing[0]}, sources)
      case Stale => Scanned(false, files)
      case Unreadable => ScanUndefined
  }

  /** Every listed name removed from the directory. */
  function RemoveNames(files: map<Bytes, Bytes>, names: seq<Bytes>): (r: map<Bytes, Bytes>)
    ensures forall n :: n in r <==> n in files && n !in names
    ensures forall n :: n in r ==> r[n] == files[n]
  {
    map n | n in files && n !in names :: files[n]
  }

  /** The engine's new state and the directory after the check; None when it is undefined. */
  function GateOutcome(listing: seq<Bytes>, files: map<Bytes, Bytes>, sources: map<Bytes, int>)
    : Option<(CacheState, map<Bytes, Bytes>)>
  {
    match Scan(listing, files, sources)
    case ScanUndefined => None
    case Scanned(valid, left) => if valid then Some((Valid, left)) else Some((Invalid, RemoveNames(left, listing)))
  }

  // ---------------------------------------------------------------------------------------
  // What the scan promises
  // ---------------------------------------------------------------------------------------

  /** The scan only ever removes files, and only listed ones whose recorded source is gone;
      it changes no file's content. */
  lemma {:induction false} ScanOnlyRemovesOrphans(listing: seq<Bytes>, files: map<Bytes, Bytes>,
                                                  sources: map<Bytes, int>)
    requires Scan(listing, files, sources).Scanned?
    ensures var left := Scan(listing, files, sources).files;
            (forall n :: n in left ==> n in files && left[n] == files[n]) &&
            (forall n :: n in files && n !in left ==> n in listing && FileVerdict(files, n, sources) == Orphaned)
    decreases |listing|
  {
    if listing != [] {
      var n := listing[0];
      var v := FileVerdict(files, n, sources);
      if v == Kept {
        ScanOnlyRemovesOrphans(listing[1..], files, sources);
      } else if v == Orphaned {
        var rest := files - {n};
        ScanOnlyRemovesOrphans(listing[1..], rest, sources);
        VerdictUnchanged(files, n, sources);
      }
    }
  }

  /** Removing one file leaves the verdict on every other name as it was. */
  lemma VerdictUnchanged(files: map<Bytes, Bytes>, gone: Bytes, sources: map<Bytes, int>)
    ensures forall n :: n in files && n != gone ==> FileVerdict(files - {gone}, n, sources) == FileVerdict(files, n, sources)
  {
    forall n | n in files && n != gone
      ensures FileVerdict(files - {gone}, n, sources) == FileVerdict(files, n, sources)
    {
      assert (files - {gone})[n] == files[n];
    }
  }

  /** Removing one file leaves the verdict on another name as it was. */
  lemma VerdictAfterRemoval(files: map<Bytes, Bytes>, gone: Bytes, n: Bytes, sources: map<Bytes, int>)
    requires n != gone
    ensures FileVerdict(files - {gone}, n, sources) == FileVerdict(files, n, sources)
  {
    if n in files {
      assert (files - {gone})[n] == files[n];
    }
  }

  /** A scan that runs to the end met only listed files whose recorded mtime matches their
      source, and removed every listed file whose source is gone. */
  lemma {:induction false} ValidScanIsUpToDate(listing: seq<Bytes>, files: map<Bytes, Bytes>,
                                               sources: map<Bytes, int>)
    requires Scan(listing, files, sources).Scanned? && Scan(listing, files, sources).valid
    ensures forall k :: 0 <= k < |listing| ==> FileVerdict(files, listing[k], sources) != Stale
    ensures forall k :: 0 <= k < |listing| && FileVerdict(files, listing[k], sources) == Orphaned ==>
              listing[k] !in Scan(listing, files, sources).files
    decreases |listing|
  {
    if listing != [] {
      var n := listing[0];
      var v := FileVerdict(files, n, sources);
      var next := if v == Orphaned then files - {n} else files;
      ValidScanIsUpToDate(listing[1..], next, sources);
      VerdictUnchanged(files, n, sources);
      ScanOnlyRemovesOrphans(listing[1..], next, sources);
      forall k | 0 < k < |listing|
        ensures FileVerdict(files, listing[k], sources) != Stale
        ensures FileVerdict(files, listing[k], sources) == Orphaned ==> listing[k] !in Scan(listing, files, sources).files
      {
        assert listing[k] == listing[1..][k - 1];
      }
    }
  }

  /** A scan that stops early stopped at a listed file whose recorded mtime differs. */
  lemma {:induction false} InvalidScanFoundStale(listing: seq<Bytes>, files: map<Bytes, Bytes>,
                                                 sources: map<Bytes, int>)
    requires Scan(listing, files, sources).Scanned? && !Scan(listing, files, sources).valid
    ensures exists k :: 0 <= k < |listing| && FileVerdict(files, listing[k], sources) == Stale
    decreases |listing|
  {
    var n := listing[0];
    var v := FileVerdict(files, n, sources);
    if v == Stale {
      assert FileVerdict(files, listing[0], sources) == Stale;
    } else {
      var next := if v == Orphaned then files - {n} else files;
      InvalidScanFoundStale(listing[1..], next, sources);
      var k :| 0 <= k < |listing[1..]| && FileVerdict(next, listing[1..][k], sources) == Stale;
      var m := listing[k + 1];
      assert m == listing[1..][k];
      if v == Orphaned {
        VerdictAfterRemoval(files, n, m, sources);
      }
    }
  }

  /** An invalid cache leaves none of the listed files behind; a valid one keeps every file
      whose source is still there, unchanged. */
  lemma GateOutcomes(listing: seq<Bytes>, files: map<Bytes, Bytes>, sources: map<Bytes, int>)
    requires GateOutcome(listing, files, sources).Some?
    ensures var (state, left) := GateOutcome(listing, files, sources).value;
            (state == Invalid ==> forall k :: 0 <= k < |listing| ==> listing[k] !in left) &&
            (state == Valid ==> forall n :: n in files && FileVerdict(files, n, sources) != Orphaned ==>
                                  n in left && left[n] == files[n])
  {
    var scan := Scan(listing, files, sources);
    ScanOnlyRemovesOrphans(listing, files, sources);
  }

  // ---------------------------------------------------------------------------------------
  // The check as compile() runs it
  // ---------------------------------------------------------------------------------------

  /** Reads the head of one cache file: the name length, that many name bytes, the mtime. */
  method ReadGateHeader(data: Bytes) returns (rec: GateRecord)
    ensures rec == ReadGateRecord(data)
  {
    var s := new ReadStream(data);
    var strLen := s.ReadWord();
    if strLen == 0 {
      return EmptyName;
    }
    var nameBytes, _ := s.ReadData(strLen);
    var mtime := s.ReadWord();
    var path := CString(nameBytes);
    if path.None? {
      return UnreadablePath;
    }
    rec := Recorded(path.value, mtime);
  }

  /** One turn of the scan: opens the listed file, reads its head and removes it when its
      recorded source is gone. */
  method CheckCacheFile(dir: CacheDirectory, name: Bytes, sources: map<Bytes, int>) returns (v: Verdict)
    modifies dir
    ensures v == FileVerdict(old(dir.files), name, sources)
    ensures dir.files == if v == Orphaned then old(dir.files) - {name} else old(dir.files)
  {
    if name !in dir.files {
      return Kept;
    }
    var rec := ReadGateHeader(dir.files[name]);
    if rec.EmptyName? {
      return Kept;
    }
    if rec.UnreadablePath? {
      return Unreadable;
    }
    if rec.path !in sources {
      dir.files := dir.files - {name};
      return Orphaned;
    }
    v := if rec.mtime != ToU32(sources[rec.path]) then Stale else Kept;
  }

  /** The scan from the i-th listed name on, one name at a time. */
  lemma ScanFrom(listing: seq<Bytes>, i: nat, files: map<Bytes, Bytes>, sources: map<Bytes, int>)
    requires i < |listing|
    ensures var v := FileVerdict(files, listing[i], sources);
            Scan(listing[i..], files, sources) ==
            match v
            case Kept => Scan(listing[i + 1..], files, sources)
            case Orphaned => Scan(listing[i + 1..], files - {listing[i]}, sources)
            case Stale => Scanned(false, files)
            case Unreadable => ScanUndefined
  {
    assert listing[i..][0] == listing[i] && listing[i..][1..] == listing[i + 1..];
  }

  /** Removes every listed name from the directory, one at a time. */
  method RemoveListed(dir: CacheDirectory, listing: seq<Bytes>)
    modifies dir
    ensures dir.files == RemoveNames(old(dir.files), listing)
  {
    ghost var files := dir.files;
    var i := 0;
    while i < |listing|
      invariant 0 <= i <= |listing|
      invariant dir.files == RemoveNames(files, listing[..i])
    {
      assert listing[..i + 1] == listing[..i] + [listing[i]];
      dir.files := dir.files - {listing[i]};
      i := i + 1;
    }
    assert listing[..i] == listing;
  }

  /**
   * The directory check (run by compile() while the engine's state is UNTESTED). False when
   * the outcome is undefined; otherwise the engine's state and the directory are those of
   * GateOutcome.
   */
  method CheckCacheDirectory(engine: Engine, dir: CacheDirectory, listing: seq<Bytes>, sources: map<Bytes, int>)
    returns (defined: bool)
    modifies engine, dir
    ensures var g := GateOutcome(listing, old(dir.files), sources);
            defined == g.Some? && (defined ==> (engine.qmlCacheValid, dir.files) == g.value)
  {
    ghost var whole := Scan(listing, dir.files, sources);
    assert listing[0..] == listing;
    var valid := true;
    var i := 0;
    while i < |listing|
      invariant 0 <= i <= |listing|
      invariant valid ==> Scan(listing[i..], dir.files, sources) == whole
      invariant !valid ==> whole == Scanned(false, dir.files) && engine.qmlCacheValid == Invalid
    {
      if !valid {
        break;
      }
      ScanFrom(listing, i, dir.files, sources);
      var v := CheckCacheFile(dir, listing[i], sources);
      if v == Unreadable {
        return false;
      }
      if v == Stale {
        engine.qmlCacheValid := Invalid;
        valid := false;
      }
      i := i + 1;
    }
    if valid {
      assert listing[i..] == [];
      engine.qmlCacheValid := Valid;
    } else {
      RemoveListed(dir, listing);
    }
    defined := true;
  }
}
