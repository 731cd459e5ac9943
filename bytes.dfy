/**
 * Raw byte handling shared by the unit cache: bytes, the 32-bit little-endian words that
 * QDataStream::writeRawData copies out of memory, the decimal text of QString::number,
 * C strings that end at the first NUL, and QString/QByteArray::contains.
 */
module ByteCodec {
  import opened Options

  newtype byte = x: int | 0 <= x < 256

  type Bytes = seq<byte>

  /** 2^32: the range of quint32. */
  const WORD: nat := 0x1_0000_0000

  /** The largest int: lengths passed to QDataStream's raw reads and writes are ints. */
  const INT_MAX: nat := 0x7fff_ffff

  /** A quint32 value. */
  type u32 = n: nat | n < WORD

  /** The value a C++ cast to quint32 keeps of an integer (two's complement wrap-around). */
  function ToU32(n: int): (r: nat)
    ensures r < WORD
    ensures 0 <= n < WORD ==> r == n
    ensures 0 <= n ==> r <= n
    ensures (n - r) % WORD == 0
  {
    n % WORD
  }

  /** 256^k: the number of values k bytes can hold. */
  function Pow256(k: nat): (r: nat)
    ensures r >= 1
  {
    if k == 0 then 1 else 256 * Pow256(k - 1)
  }

  /** The k low bytes of n, least significant first. */
  function LittleEndian(n: nat, k: nat): (r: Bytes)
    ensures |r| == k
  {
    if k == 0 then [] else [(n % 256) as byte] + LittleEndian(n / 256, k - 1)
  }

  /** The number whose little-endian image is `b`. */
  function ValueOf(b: Bytes): (r: nat)
    ensures r < Pow256(|b|)
  {
    if b == [] then 0 else b[0] as nat + 256 * ValueOf(b[1..])
  }

  lemma {:induction false} ValueOfLittleEndian(n: nat, k: nat)
    requires n < Pow256(k)
    ensures ValueOf(LittleEndian(n, k)) == n
  {
    if k > 0 {
      var b := LittleEndian(n, k);
      assert b[1..] == LittleEndian(n / 256, k - 1);
      ValueOfLittleEndian(n / 256, k - 1);
    }
  }

  lemma {:induction false} LittleEndianOfValue(b: Bytes)
    ensures LittleEndian(ValueOf(b), |b|) == b
  {
    if b != [] {
      SplitLowByte(b[0] as nat, ValueOf(b[1..]));
      LittleEndianOfValue(b[1..]);
    }
  }

  /** The four bytes of a quint32 as they lie in memory on a little-endian machine. */
  function EncodeU32(n: nat): (r: Bytes)
    requires n < WORD
    ensures |r| == 4
  {
    LittleEndian(n, 4)
  }

  /** The quint32 whose memory image is the four bytes `b`. */
  function DecodeU32(b: Bytes): (r: nat)
    requires |b| == 4
    ensures r < WORD
  {
    assert Pow256(4) == WORD;
    ValueOf(b)
  }

  lemma DecodeEncodeU32(n: nat)
    requires n < WORD
    ensures DecodeU32(EncodeU32(n)) == n
  {
    assert Pow256(4) == WORD;
    ValueOfLittleEndian(n, 4);
  }

  /** Splitting off the low byte of a number built from a low byte and a high part. */
  lemma SplitLowByte(lo: nat, hi: nat)
    requires lo < 256
    ensures (lo + 256 * hi) % 256 == lo && (lo + 256 * hi) / 256 == hi
  {
  }

  lemma EncodeDecodeU32(b: Bytes)
    requires |b| == 4
    ensures EncodeU32(DecodeU32(b)) == b
  {
    LittleEndianOfValue(b);
  }

  /**
   * What a quint32 variable holds after QDataStream::readRawData copied only the bytes
   * `got` (fewer than four when the stream ran dry) over its previous value `init`:
   * the first |got| bytes of its memory image are replaced, the others kept.
   */
  function OverwriteU32(init: nat, got: Bytes): (r: nat)
    requires init < WORD && |got| <= 4
    ensures r < WORD
    ensures |got| == 4 ==> r == DecodeU32(got)
    ensures |got| == 0 ==> r == init
  {
    DecodeEncodeU32(init);
    var image := got + EncodeU32(init)[|got|..];
    assert |got| == 4 ==> image == got;
    assert |got| == 0 ==> image == EncodeU32(init);
    DecodeU32(image)
  }

  /** The ASCII digit for 0 <= d < 10. */
  function Digit(d: nat): (r: byte)
    requires d < 10
    ensures '0' as int <= r as int <= '9' as int
  {
    ('0' as int + d) as byte
  }

  /** The decimal text of a non-negative number, most significant digit first, no leading zeros. */
  function NaturalText(n: nat): (r: Bytes)
    ensures |r| >= 1
    ensures forall i :: 0 <= i < |r| ==> '0' as int <= r[i] as int <= '9' as int
    decreases n
  {
    if n < 10 then [Digit(n)] else NaturalText(n / 10) + [Digit(n % 10)]
  }

  /** QString::number(int): a '-' sign before the digits of a negative number. */
  function NumberText(n: int): (r: Bytes)
    ensures |r| >= 1
    ensures 0 !in r
  {
    if n < 0 then ['-' as int as byte] + NaturalText(-n) else NaturalText(n)
  }

  /** QByteArray/QString::contains: `needle` occurs in `hay` at some position. */
  predicate Contains(hay: Bytes, needle: Bytes)
    decreases |hay|
  {
    |needle| <= |hay| && (hay[..|needle|] == needle || Contains(hay[1..], needle))
  }

  /** `needle` occurs in `hay` starting at offset `i`. */
  predicate OccursAt(hay: Bytes, needle: Bytes, i: int)
  {
    0 <= i <= |hay| - |needle| && hay[i..i + |needle|] == needle
  }

  /** Contains means exactly "occurs at some offset". */
  lemma {:induction false} ContainsIffOccurs(hay: Bytes, needle: Bytes)
    ensures Contains(hay, needle) <==> exists i :: OccursAt(hay, needle, i)
    decreases |hay|
  {
    if |needle| <= |hay| && hay[..|needle|] != needle {
      ContainsIffOccurs(hay[1..], needle);
      if exists i :: OccursAt(hay, needle, i) {
        var i :| OccursAt(hay, needle, i);
        assert i != 0;
        assert OccursAt(hay[1..], needle, i - 1) by {
          assert hay[1..][i - 1..i - 1 + |needle|] == hay[i..i + |needle|];
        }
      }
      if Contains(hay[1..], needle) {
        var j :| OccursAt(hay[1..], needle, j);
        assert OccursAt(hay, needle, j + 1) by {
          assert hay[1..][j..j + |needle|] == hay[j + 1..j + 1 + |needle|];
        }
      }
    } else if |needle| <= |hay| {
      assert OccursAt(hay, needle, 0);
    }
  }

  /** A string is found wherever it occurs. */
  lemma ContainsAt(hay: Bytes, needle: Bytes, i: nat)
    requires OccursAt(hay, needle, i)
    ensures Contains(hay, needle)
  {
    ContainsIffOccurs(hay, needle);
  }

  /** The empty string is contained in everything: QString::contains("") is true. */
  lemma ContainsEmpty(hay: Bytes)
    ensures Contains(hay, [])
  {
    ContainsAt(hay, [], 0);
  }

  /** Between strings of one length, containment is equality. */
  lemma ContainsSameLength(hay: Bytes, needle: Bytes)
    requires |hay| == |needle|
    ensures Contains(hay, needle) <==> hay == needle
  {
    ContainsIffOccurs(hay, needle);
    if Contains(hay, needle) {
      var i :| OccursAt(hay, needle, i);
      assert i == 0;
    } else {
      assert !OccursAt(hay, needle, 0);
    }
  }

  /** The bytes a C routine sees when handed `b` as a `char *`: everything before the first NUL. */
  function CString(b: Bytes): (r: Option<Bytes>)
    ensures r.None? <==> 0 !in b
    ensures r.Some? ==> 0 !in r.value && |r.value| < |b| && b[|r.value|] == 0
    ensures r.Some? ==> r.value == b[..|r.value|]
  {
    if |b| == 0 then None
    else if b[0] == 0 then Some([])
    else match CString(b[1..])
      case None => None
      case Some(rest) => Some([b[0]] + rest)
  }

  /** What strlen-based code (QLatin1String of a `const char *`) sees of a NUL-terminated
      buffer holding `b`: the bytes before the first NUL of `b`, or all of `b`. */
  function UpToNul(b: Bytes): (r: Bytes)
    ensures 0 !in r && |r| <= |b| && r == b[..|r|]
    ensures |r| < |b| ==> b[|r|] == 0
    ensures 0 !in b ==> r == b
  {
    if |b| == 0 || b[0] == 0 then [] else [b[0]] + UpToNul(b[1..])
  }

  /** n zero bytes: what a value-initialised buffer holds where nothing was read into it. */
  function Zeros(n: nat): (r: Bytes)
    ensures |r| == n && forall i :: 0 <= i < n ==> r[i] == 0
  {
    seq(n, _ => 0)
  }

  /** A string followed by its terminating NUL reads back as itself. */
  lemma CStringOfTerminated(s: Bytes, tail: Bytes)
    requires 0 !in s
    ensures CString(s + [0] + tail) == Some(s)
  {
    var b := s + [0] + tail;
    var r := CString(b);
    assert 0 in b by { assert b[|s|] == 0; }
    assert r.value == b[..|s|] == s;
  }
}
