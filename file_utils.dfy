/** The text-or-binary decision of `is_text_file` in shared/utils/file_utils.py,
    over the first chunk of the file: too many bytes outside the printable
    ASCII range (and four control characters) make it binary, and otherwise it
    is text exactly when it is well-formed UTF-8 as RFC 3629 section 4 defines
    it. */
module FileUtils {

  /** A byte. */
  type Byte = b: int | 0 <= b < 256

  /** `f.read(8192)`: the classifier looks at no more than this many bytes. */
  const ChunkSize: nat := 8192

  /** `bytes(range(32, 127)) + b'\n\r\t\b'`. */
  predicate IsTextByte(b: Byte) {
    32 <= b <= 126 || b == 10 || b == 13 || b == 9 || b == 8
  }

  /** `sum(1 for byte in chunk if byte not in text_characters)`. */
  function BinaryCount(chunk: seq<Byte>): (n: nat)
    ensures n <= |chunk|
    ensures n == 0 <==> forall i :: 0 <= i < |chunk| ==> IsTextByte(chunk[i])
    ensures n == |chunk| <==> forall i :: 0 <= i < |chunk| ==> !IsTextByte(chunk[i])
  {
    if chunk == [] then 0
    else
      var rest := BinaryCount(chunk[1..]);
      assert forall i :: 1 <= i < |chunk| ==> chunk[i] == chunk[1..][i - 1];
      (if IsTextByte(chunk[0]) then 0 else 1) + rest
  }

  /** Counting over two pieces adds the counts. */
  lemma {:induction false} BinaryCountConcat(a: seq<Byte>, b: seq<Byte>)
    ensures BinaryCount(a + b) == BinaryCount(a) + BinaryCount(b)
    decreases |a|
  {
    if a != [] {
      assert (a + b)[1..] == a[1..] + b;
      BinaryCountConcat(a[1..], b);
    } else {
      assert a + b == b;
    }
  }

  /** A continuation byte, `UTF8-tail = %x80-BF`. */
  predicate IsTail(b: Byte) {
    0x80 <= b <= 0xBF
  }

  /** The length of the character a lead byte starts, or 0 for a byte that
      cannot start one (a continuation byte, `C0`, `C1` or `F5`..`FF`). */
  function Width(b: Byte): (w: nat)
    ensures w <= 4
  {
    if b <= 0x7F then 1
    else if 0xC2 <= b <= 0xDF then 2
    else if 0xE0 <= b <= 0xEF then 3
    else if 0xF0 <= b <= 0xF4 then 4
    else 0
  }

  /** One character, `UTF8-char` of RFC 3629 section 4: the second byte's
      range depends on the lead byte so that overlong forms, surrogates and
      values above U+10FFFF are excluded. */
  predicate IsChar(c: seq<Byte>) {
    (|c| == 1 && c[0] <= 0x7F) ||
    (|c| == 2 && 0xC2 <= c[0] <= 0xDF && IsTail(c[1])) ||
    (|c| == 3 && IsTail(c[2]) &&
      ((c[0] == 0xE0 && 0xA0 <= c[1] <= 0xBF) ||
       (0xE1 <= c[0] <= 0xEC && IsTail(c[1])) ||
       (c[0] == 0xED && 0x80 <= c[1] <= 0x9F) ||
       (0xEE <= c[0] <= 0xEF && IsTail(c[1])))) ||
    (|c| == 4 && IsTail(c[2]) && IsTail(c[3]) &&
      ((c[0] == 0xF0 && 0x90 <= c[1] <= 0xBF) ||
       (0xF1 <= c[0] <= 0xF3 && IsTail(c[1])) ||
       (c[0] == 0xF4 && 0x80 <= c[1] <= 0x8F)))
  }

  /** `UTF8-octets = *( UTF8-char )`: `chunk.decode('utf-8')` succeeds. */
  predicate ValidUtf8(s: seq<Byte>)
    decreases |s|
  {
    s == [] ||
    (var w := Width(s[0]); 0 < w <= |s| && IsChar(s[..w]) && ValidUtf8(s[w..]))
  }

  /** A character's lead byte gives its length. */
  lemma CharWidth(c: seq<Byte>)
    requires IsChar(c)
    ensures Width(c[0]) == |c|
  {
  }

  /** A Unicode scalar value: a code point that is not a surrogate. */
  predicate IsScalar(cp: int) {
    0 <= cp <= 0x10FFFF && !(0xD800 <= cp <= 0xDFFF)
  }

  /** The UTF-8 encoding of one scalar value (RFC 3629 section 3). */
  function Encode(cp: int): (c: seq<Byte>)
    requires IsScalar(cp)
    ensures 1 <= |c| <= 4
  {
    if cp < 0x80 then [cp]
    else if cp < 0x800 then [0xC0 + cp / 64, 0x80 + cp % 64]
    else if cp < 0x10000 then [0xE0 + cp / 4096, 0x80 + (cp / 64) % 64, 0x80 + cp % 64]
    else [0xF0 + cp / 262144, 0x80 + (cp / 4096) % 64, 0x80 + (cp / 64) % 64, 0x80 + cp % 64]
  }

  /** The scalar value one well-formed character encodes. */
  function Decode(c: seq<Byte>): (cp: int)
    requires IsChar(c)
  {
    var b: seq<int> := c;
    if |b| == 1 then b[0]
    else if |b| == 2 then (b[0] - 0xC0) * 64 + (b[1] - 0x80)
    else if |b| == 3 then (b[0] - 0xE0) * 4096 + (b[1] - 0x80) * 64 + (b[2] - 0x80)
    else (b[0] - 0xF0) * 262144 + (b[1] - 0x80) * 4096 + (b[2] - 0x80) * 64 + (b[3] - 0x80)
  }

  /** Every scalar value encodes to one well-formed character, which decodes
      back to it. */
  lemma EncodeDecode(cp: int)
    requires IsScalar(cp)
    ensures IsChar(Encode(cp)) && Decode(Encode(cp)) == cp
  {
    if cp < 0x80 {
    } else if cp < 0x800 {
      EncodeTwo(cp);
    } else if cp < 0x10000 {
      EncodeThree(cp);
    } else {
      EncodeFour(cp);
    }
  }

  lemma EncodeTwo(cp: int)
    requires 0x80 <= cp < 0x800
    ensures IsChar(Encode(cp)) && Decode(Encode(cp)) == cp
  {
    var a, b := cp / 64, cp % 64;
    assert cp == a * 64 + b;
    assert 2 <= a < 32;
  }

  lemma EncodeThree(cp: int)
    requires 0x800 <= cp < 0x10000 && IsScalar(cp)
    ensures IsChar(Encode(cp)) && Decode(Encode(cp)) == cp
  {
    var a, m, b := cp / 4096, (cp / 64) % 64, cp % 64;
    var q := cp / 64;
    assert cp == q * 64 + b;
    assert q == a * 64 + m;
    assert a < 16;
    assert a == 0 ==> m >= 32;
    assert a == 13 ==> m < 32;
  }

  lemma EncodeFour(cp: int)
    requires 0x10000 <= cp <= 0x10FFFF
    ensures IsChar(Encode(cp)) && Decode(Encode(cp)) == cp
  {
    var a, m1, m2, b := cp / 262144, (cp / 4096) % 64, (cp / 64) % 64, cp % 64;
    var q1, q2 := cp / 4096, cp / 64;
    assert cp == q2 * 64 + b;
    assert q2 == q1 * 64 + m2;
    assert q1 == a * 64 + m1;
    assert a < 5;
    assert a == 0 ==> m1 >= 16;
    assert a == 4 ==> m1 < 16;
  }

  /** Every well-formed character is the encoding of the value it decodes
      to, which is a scalar value. */
  lemma DecodeEncode(c: seq<Byte>)
    requires IsChar(c)
    ensures IsScalar(Decode(c)) && Encode(Decode(c)) == c
  {
    if |c| == 2 {
      assert Encode(Decode(c)) == [c[0], c[1]];
    } else if |c| == 3 {
      DecodeThree(c);
    } else if |c| == 4 {
      DecodeFour(c);
    }
  }

  lemma DecodeThree(c: seq<Byte>)
    requires IsChar(c) && |c| == 3
    ensures IsScalar(Decode(c)) && Encode(Decode(c)) == c
  {
    var a: int, m: int, b: int := c[0] as int - 0xE0, c[1] as int - 0x80, c[2] as int - 0x80;
    var cp := Decode(c);
    assert cp == (a * 64 + m) * 64 + b;
    assert cp / 64 == a * 64 + m;
    assert cp % 64 == b;
    assert cp / 4096 == a;
    assert Encode(cp) == [c[0], c[1], c[2]];
  }

  lemma DecodeFour(c: seq<Byte>)
    requires IsChar(c) && |c| == 4
    ensures IsScalar(Decode(c)) && Encode(Decode(c)) == c
  {
    var a: int, m1: int, m2: int, b: int := c[0] as int - 0xF0, c[1] as int - 0x80, c[2] as int - 0x80, c[3] as int - 0x80;
    var cp := Decode(c);
    assert cp == ((a * 64 + m1) * 64 + m2) * 64 + b;
    assert cp / 64 == (a * 64 + m1) * 64 + m2;
    assert cp % 64 == b;
    assert cp / 4096 == a * 64 + m1;
    assert cp / 262144 == a;
    assert Encode(cp) == [c[0], c[1], c[2], c[3]];
  }

  /** The encoding of a sequence of scalar values. */
  function EncodeAll(cps: seq<int>): (s: seq<Byte>)
    requires forall i :: 0 <= i < |cps| ==> IsScalar(cps[i])
  {
    if cps == [] then [] else Encode(cps[0]) + EncodeAll(cps[1..])
  }

  /** Every encoding is well-formed UTF-8. */
  lemma {:induction false} EncodedIsValid(cps: seq<int>)
    requires forall i :: 0 <= i < |cps| ==> IsScalar(cps[i])
    ensures ValidUtf8(EncodeAll(cps))
  {
    if cps != [] {
      var c := Encode(cps[0]);
      var s := EncodeAll(cps);
      EncodeDecode(cps[0]);
      CharWidth(c);
      EncodedIsValid(cps[1..]);
      assert s[..|c|] == c;
      assert s[|c|..] == EncodeAll(cps[1..]);
    }
  }

  /** The scalar values a well-formed byte string encodes. */
  function DecodeAll(s: seq<Byte>): (cps: seq<int>)
    requires ValidUtf8(s)
    ensures forall i :: 0 <= i < |cps| ==> IsScalar(cps[i])
    decreases |s|
  {
    if s == [] then []
    else
      var w := Width(s[0]);
      DecodeEncode(s[..w]);
      [Decode(s[..w])] + DecodeAll(s[w..])
  }

  /** Every well-formed byte string is the encoding of what it decodes to:
      the validity check accepts exactly the encodings of scalar values. */
  lemma {:induction false} ValidIsEncoded(s: seq<Byte>)
    requires ValidUtf8(s)
    ensures EncodeAll(DecodeAll(s)) == s
    decreases |s|
  {
    if s != [] {
      var w := Width(s[0]);
      DecodeEncode(s[..w]);
      ValidIsEncoded(s[w..]);
      var cps := DecodeAll(s);
      assert cps[1..] == DecodeAll(s[w..]);
    }
  }

  /** A chunk cut inside a multibyte character is not well-formed, however
      well-formed the bytes before the character are. */
  lemma {:induction false} CutCharInvalid(prefix: seq<Byte>, c: seq<Byte>, k: nat)
    requires ValidUtf8(prefix) && IsChar(c) && 0 < k < |c|
    ensures !ValidUtf8(prefix + c[..k])
    decreases |prefix|
  {
    var s := prefix + c[..k];
    CharWidth(c);
    if prefix == [] {
      assert s == c[..k];
      assert s[0] == c[0];
    } else {
      var w := Width(prefix[0]);
      assert s[0] == prefix[0];
      assert s[..w] == prefix[..w];
      assert s[w..] == prefix[w..] + c[..k];
      CutCharInvalid(prefix[w..], c, k);
    }
  }

  /** The classification of a chunk that `is_text_file` makes: an empty
      chunk is text; more than 30% non-text bytes (`binary_chars / len(chunk)
      > 0.3`, which for a chunk of at most 8192 bytes is the integer test
      below) is binary; otherwise the chunk is text when it decodes as UTF-8. */
  predicate IsTextChunk(chunk: seq<Byte>) {
    if chunk == [] then true
    else if 10 * BinaryCount(chunk) > 3 * |chunk| then false
    else ValidUtf8(chunk)
  }

  /** `is_text_file` on a readable file with the given content: only the
      first 8192 bytes are looked at. */
  predicate IsTextContent(content: seq<Byte>) {
    IsTextChunk(if |content| <= ChunkSize then content else content[..ChunkSize])
  }

  /** A chunk classified as text has at most 30% non-text bytes and is
      well-formed UTF-8; an empty chunk is text. */
  lemma TextChunkBounds(chunk: seq<Byte>)
    ensures IsTextChunk([])
    ensures IsTextChunk(chunk) ==> 10 * BinaryCount(chunk) <= 3 * |chunk| && ValidUtf8(chunk)
  {
  }

  /** Printable ASCII with newlines, returns, tabs and backspaces is always
      text. */
  lemma {:induction false} AsciiTextIsText(chunk: seq<Byte>)
    requires forall i :: 0 <= i < |chunk| ==> IsTextByte(chunk[i])
    ensures IsTextChunk(chunk)
  {
    AsciiIsValid(chunk);
  }

  lemma {:induction false} AsciiIsValid(s: seq<Byte>)
    requires forall i :: 0 <= i < |s| ==> s[i] <= 0x7F
    ensures ValidUtf8(s)
    decreases |s|
  {
    if s != [] {
      AsciiIsValid(s[1..]);
      assert s[..1] == [s[0]];
    }
  }

  /** A chunk made only of non-text bytes is binary, such as the bytes 0 to 5. */
  lemma AllBinaryIsBinary(chunk: seq<Byte>)
    requires chunk != []
    requires forall i :: 0 <= i < |chunk| ==> !IsTextByte(chunk[i])
    ensures !IsTextChunk(chunk)
  {
  }

  lemma LowControlBytes()
    ensures !IsTextChunk([0, 1, 2, 3, 4, 5])
  {
    AllBinaryIsBinary([0, 1, 2, 3, 4, 5]);
  }

  /** Six ASCII letters and an `é` are text. */
  lemma WholeCharChunk()
    ensures IsTextChunk([0x61, 0x61, 0x61, 0x61, 0x61, 0x61, 0xC3, 0xA9])
  {
    var prefix: seq<Byte> := [0x61, 0x61, 0x61, 0x61, 0x61, 0x61];
    AsciiIsValid(prefix);
    var e: seq<Byte> := [0xC3, 0xA9];
    assert IsChar(e);
    assert ValidUtf8(e) by {
      assert e[..2] == e && e[2..] == [];
    }
    ValidConcat(prefix, e);
    assert prefix + e == [0x61, 0x61, 0x61, 0x61, 0x61, 0x61, 0xC3, 0xA9];
    BinaryCountConcat(prefix, e);
  }

  /** Cutting the `é` of the chunk above in half, as the 8192-byte read can,
      makes the same bytes binary although only one in seven is non-text. */
  lemma CutCharChunk()
    ensures !IsTextChunk([0x61, 0x61, 0x61, 0x61, 0x61, 0x61, 0xC3])
  {
    var prefix: seq<Byte> := [0x61, 0x61, 0x61, 0x61, 0x61, 0x61];
    AsciiIsValid(prefix);
    var e: seq<Byte> := [0xC3, 0xA9];
    assert IsChar(e);
    CutCharInvalid(prefix, e, 1);
    assert prefix + e[..1] == [0x61, 0x61, 0x61, 0x61, 0x61, 0x61, 0xC3];
  }

  /** Well-formed strings concatenate to a well-formed string. */
  lemma {:induction false} ValidConcat(a: seq<Byte>, b: seq<Byte>)
    requires ValidUtf8(a) && ValidUtf8(b)
    ensures ValidUtf8(a + b)
    decreases |a|
  {
    if a == [] {
      assert a + b == b;
    } else {
      var w := Width(a[0]);
      assert (a + b)[..w] == a[..w];
      assert (a + b)[w..] == a[w..] + b;
      ValidConcat(a[w..], b);
    }
  }
}
