// Content identifiers: the unpadded lower-case base32 encoder and its bit buffer.
module Cid {
  import opened Division

  type Byte = b: nat | b < 256

  /** Multibase 'b' (section 6 of RFC 4648, lower case, no padding). */
  const BASE32_ALPHABET: string := "abcdefghijklmnopqrstuvwxyz234567"

  /** Version 1, raw codec, sha2-256, 32 bytes of digest. */
  const CIDV1_RAW_SHA256_PREFIX: seq<Byte> := [0x01, 0x55, 0x12, 0x20]

  const CIDV1_RAW_SHA256_LENGTH: nat := 59

  function Pow2(k: nat): (p: nat)
    ensures p > 0
  {
    if k == 0 then 1 else 2 * Pow2(k - 1)
  }

  /** The big-endian number of a byte string. */
  function NumberOf(bytes: seq<Byte>): nat
  {
    if bytes == [] then 0 else NumberOf(bytes[..|bytes| - 1]) * 256 + bytes[|bytes| - 1]
  }

  predicate IsSymbol(c: char) { 'a' <= c <= 'z' || '2' <= c <= '7' }

  predicate IsText(s: string) { forall i :: 0 <= i < |s| ==> IsSymbol(s[i]) }

  function DigitOf(c: char): (d: nat)
    requires IsSymbol(c)
    ensures d < 32 && BASE32_ALPHABET[d] == c
  {
    if 'a' <= c <= 'z' then (c - 'a') as nat else (c - '2') as nat + 26
  }

  function SymbolOf(d: nat): (c: char)
    requires d < 32
    ensures IsSymbol(c) && DigitOf(c) == d && BASE32_ALPHABET[d] == c
  {
    BASE32_ALPHABET[d]
  }

  /** The number a base32 text stands for, most significant symbol first. */
  function NumberOfText(s: string): nat
    requires IsText(s)
  {
    if s == [] then 0 else NumberOfText(s[..|s| - 1]) * 32 + DigitOf(s[|s| - 1])
  }

  // ── Fixed-width digits ────────────────────────────────────────────────────────

  function TextOf(v: nat, width: nat): (s: string)
    ensures |s| == width && IsText(s)
  {
    if width == 0 then [] else TextOf(v / 32, width - 1) + [SymbolOf(v % 32)]
  }

  function BytesOf(v: nat, width: nat): (bytes: seq<Byte>)
    ensures |bytes| == width
  {
    if width == 0 then [] else BytesOf(v / 256, width - 1) + [v % 256]
  }

  lemma {:induction false} TextOfNumber(s: string)
    requires IsText(s)
    ensures TextOf(NumberOfText(s), |s|) == s
  {
    if s != [] {
      var n := |s| - 1;
      TextOfNumber(s[..n]);
      assert NumberOfText(s) / 32 == NumberOfText(s[..n]) && NumberOfText(s) % 32 == DigitOf(s[n]);
      assert s == s[..n] + [s[n]];
    }
  }

  lemma {:induction false} BytesOfNumber(bytes: seq<Byte>)
    ensures BytesOf(NumberOf(bytes), |bytes|) == bytes
  {
    if bytes != [] {
      var n := |bytes| - 1;
      BytesOfNumber(bytes[..n]);
      assert NumberOf(bytes) / 256 == NumberOf(bytes[..n]) && NumberOf(bytes) % 256 == bytes[n];
      assert bytes == bytes[..n] + [bytes[n]];
    }
  }

  // ── The encoding and its inverse ──────────────────────────────────────────────

  /** How many symbols `n` bytes take: the ceiling of 8n/5. */
  function Symbols(n: nat): nat { (8 * n + 4) / 5 }

  /** The zero bits that fill the last symbol. */
  function Padding(n: nat): nat { 5 * Symbols(n) - 8 * n }

  /** The bits of `bytes`, padded with zero bits on the right, in groups of five. */
  function Encoded(bytes: seq<Byte>): string
  {
    TextOf(NumberOf(bytes) * Pow2(Padding(|bytes|)), Symbols(|bytes|))
  }

  /** The whole bytes of a text's bits; the bits that are left over are dropped. */
  function Decoded(s: string): seq<Byte>
    requires IsText(s)
  {
    BytesOf(Quotient(NumberOfText(s), Pow2(5 * |s| % 8)), 5 * |s| / 8)
  }

  lemma {:induction false} NumberOfTextOf(v: nat, width: nat)
    requires v < Pow2(5 * width)
    ensures NumberOfText(TextOf(v, width)) == v
  {
    if width > 0 {
      Pow2Five(width);
      NumberOfTextOf(v / 32, width - 1);
      var s := TextOf(v, width);
      assert s[..|s| - 1] == TextOf(v / 32, width - 1);
    }
  }

  lemma Pow2Five(width: nat)
    requires width > 0
    ensures Pow2(5 * width) == 32 * Pow2(5 * (width - 1))
  {
    hide Pow2;
    FiveBits(5 * (width - 1));
  }

  lemma FiveBits(k: nat)
    ensures Pow2(k + 5) == 32 * Pow2(k)
  {
    assert Pow2(k + 1) == 2 * Pow2(k) && Pow2(k + 2) == 2 * Pow2(k + 1) && Pow2(k + 3) == 2 * Pow2(k + 2);
    assert Pow2(k + 4) == 2 * Pow2(k + 3) && Pow2(k + 5) == 2 * Pow2(k + 4);
  }

  lemma {:induction false} Pow2Sum(a: nat, b: nat)
    ensures Pow2(a + b) == Pow2(a) * Pow2(b)
  {
    if b > 0 { Pow2Sum(a, b - 1); Regroup(Pow2(a), Pow2(b - 1)); }
  }

  lemma Regroup(x: nat, y: nat)
    ensures x * (2 * y) == 2 * (x * y)
  {
  }

  lemma {:induction false} NumberIsBounded(bytes: seq<Byte>)
    ensures NumberOf(bytes) < Pow2(8 * |bytes|)
  {
    if bytes != [] {
      NumberIsBounded(bytes[..|bytes| - 1]);
      var k := 8 * (|bytes| - 1);
      Pow2Sum(k, 8);
      assert Pow2(8) == 256 by { EightBits(); }
    }
  }

  lemma EightBits()
    ensures Pow2(8) == 256
  {
    assert Pow2(4) == 16;
    Pow2Sum(4, 4);
  }

  lemma ScaleBelow(v: nat, bound: nat, p: nat)
    requires v < bound && p > 0
    ensures v * p < bound * p
  {
  }

  /** Padding is short of a whole symbol, so decoding drops exactly it. */
  lemma PaddingIsDropped(n: nat)
    ensures 8 * n + Padding(n) == 5 * Symbols(n) && Padding(n) < 5
    ensures 5 * Symbols(n) % 8 == Padding(n) && 5 * Symbols(n) / 8 == n
  {
    var k, r := n / 5, n % 5;
    assert n == 5 * k + r;
    var extra := [0, 2, 4, 5, 7][r];
    assert Symbols(n) == 8 * k + extra;
  }

  lemma EncodedNumber(bytes: seq<Byte>)
    ensures NumberOfText(Encoded(bytes)) == NumberOf(bytes) * Pow2(Padding(|bytes|))
  {
    hide Pow2;
    hide TextOf;
    hide NumberOfText;
    hide NumberOf;
    hide Padding;
    hide Symbols;
    var n := |bytes|;
    PaddingIsDropped(n);
    NumberIsBounded(bytes);
    Pow2Sum(8 * n, Padding(n));
    ScaleBelow(NumberOf(bytes), Pow2(8 * n), Pow2(Padding(n)));
    NumberOfTextOf(NumberOf(bytes) * Pow2(Padding(n)), Symbols(n));
  }

  /** Decoding undoes encoding, for every byte string. */
  lemma DecodedIsInverse(bytes: seq<Byte>)
    ensures Decoded(Encoded(bytes)) == bytes
  {
    hide Pow2;
    hide TextOf;
    hide BytesOf;
    PaddingIsDropped(|bytes|);
    EncodedNumber(bytes);
    DivisionIsUnique(NumberOf(bytes) * Pow2(Padding(|bytes|)), Pow2(Padding(|bytes|)), NumberOf(bytes), 0);
    BytesOfNumber(bytes);
  }

  // ── Known texts ───────────────────────────────────────────────────────────────

  /** The encodings of "f" and of "fooba", lower case and unpadded (section 10 of RFC 4648). */
  lemma KnownTexts()
    ensures Encoded([0x66]) == "my"
    ensures Encoded([0x66, 0x6f, 0x6f, 0x62, 0x61]) == "mzxw6ytb"
  {
    MyNumber();
    FoobaNumber();
    IsEncoded("my", [0x66]);
    IsEncoded("mzxw6ytb", [0x66, 0x6f, 0x6f, 0x62, 0x61]);
    hide *;
  }

  lemma NumberOfMore(bytes: seq<Byte>, b: Byte)
    ensures NumberOf(bytes + [b]) == NumberOf(bytes) * 256 + b
  {
    assert (bytes + [b])[..|bytes|] == bytes;
  }

  lemma TextOfMore(s: string, c: char)
    requires IsText(s) && IsSymbol(c)
    ensures IsText(s + [c]) && NumberOfText(s + [c]) == NumberOfText(s) * 32 + DigitOf(c)
  {
    assert (s + [c])[..|s|] == s;
  }

  lemma MyNumber()
    ensures IsText("my") && NumberOfText("my") == NumberOf([0x66]) * Pow2(Padding(1)) && Symbols(1) == 2
  {
    assert Pow2(0) == 1 && Pow2(1) == 2 && Pow2(2) == 4;
    TextOfMore("", 'm');
    TextOfMore("m", 'y');
    assert "" + ['m'] == "m" && "m" + ['y'] == "my";
    NumberOfMore([], 0x66);
    assert [] + [0x66] == [0x66];
  }

  lemma FoobaNumber()
    ensures IsText("mzxw6ytb") && NumberOfText("mzxw6ytb") == NumberOf([0x66, 0x6f, 0x6f, 0x62, 0x61]) * Pow2(Padding(5))
    ensures Symbols(5) == 8
  {
    hide NumberOf;
    hide NumberOfText;
    var four: seq<Byte> := [0x66, 0x6f, 0x6f, 0x62];
    FoobNumber(four);
    NumberOfMore(four, 0x61);
    assert four + [0x61] == [0x66, 0x6f, 0x6f, 0x62, 0x61];
    ShortText();
    TextOfMore("mzxw", '6');
    TextOfMore("mzxw6", 'y');
    TextOfMore("mzxw6y", 't');
    TextOfMore("mzxw6yt", 'b');
    assert "mzxw" + ['6'] == "mzxw6" && "mzxw6" + ['y'] == "mzxw6y";
    assert "mzxw6y" + ['t'] == "mzxw6yt" && "mzxw6yt" + ['b'] == "mzxw6ytb";
    assert Pow2(0) == 1;
  }

  lemma FoobNumber(four: seq<Byte>)
    requires four == [0x66, 0x6f, 0x6f, 0x62]
    ensures NumberOf(four) == 0x666f6f62
  {
    NumberOfMore([], 0x66);
    NumberOfMore([0x66], 0x6f);
    NumberOfMore([0x66, 0x6f], 0x6f);
    NumberOfMore([0x66, 0x6f, 0x6f], 0x62);
    assert [] + [0x66] == [0x66] && [0x66] + [0x6f] == [0x66, 0x6f];
    assert [0x66, 0x6f] + [0x6f] == [0x66, 0x6f, 0x6f] && [0x66, 0x6f, 0x6f] + [0x62] == four;
  }

  lemma ShortText()
    ensures IsText("mzxw") && NumberOfText("mzxw") == ((12 * 32 + 25) * 32 + 23) * 32 + 22
  {
    TextOfMore("", 'm');
    TextOfMore("m", 'z');
    TextOfMore("mz", 'x');
    TextOfMore("mzx", 'w');
    assert "" + ['m'] == "m" && "m" + ['z'] == "mz" && "mz" + ['x'] == "mzx" && "mzx" + ['w'] == "mzxw";
  }

  // ── The bit buffer ────────────────────────────────────────────────────────────

  /** The low `bits + 5` bits are five bits above the low `bits`. */
  lemma SplitRemainder(value: nat, p: nat)
    requires p > 0
    ensures Remainder(value, 32 * p) == Quotient(value, p) % 32 * p + Remainder(value, p)
  {
    hide Quotient;
    hide Remainder;
    var q, r := Quotient(value, p), Remainder(value, p);
    Divided(value, p);
    var high, low := q / 32, q % 32;
    Nested(high, low, p);
    BelowProduct(low, r, p);
    DivisionIsUnique(value, 32 * p, high, low * p + r);
  }

  lemma Nested(h: nat, d: nat, p: nat)
    ensures (h * 32 + d) * p == h * (32 * p) + d * p
  {
  }

  lemma BelowProduct(d: nat, r: nat, p: nat)
    requires d < 32 && r < p
    ensures d * p + r < 32 * p
  {
    ProductGrows(d, 32, p);
  }

  /** Dropping the top five of `bits + 5` buffered bits into a symbol. */
  lemma TakeSymbol(text: nat, value: nat, bits: nat, total: nat)
    requires text * Pow2(bits + 5) + Remainder(value, Pow2(bits + 5)) == total
    ensures (text * 32 + Quotient(value, Pow2(bits)) % 32) * Pow2(bits) + Remainder(value, Pow2(bits)) == total
  {
    var p := Pow2(bits);
    Pow2Sum(5, bits);
    assert Pow2(5) == 32;
    hide Pow2;
    hide Quotient;
    hide Remainder;
    SplitRemainder(value, p);
    Nested(text, Quotient(value, p) % 32, p);
  }

  /** What the bit buffer has emitted and still holds, after `consumed` has been read. */
  ghost predicate Buffered(output: string, value: nat, bits: nat, consumed: seq<Byte>)
  {
    && IsText(output)
    && 5 * |output| + bits == 8 * |consumed|
    && NumberOfText(output) * Pow2(bits) + Remainder(value, Pow2(bits)) == NumberOf(consumed)
  }

  lemma AppendSymbol(output: string, d: nat)
    requires IsText(output) && d < 32
    ensures IsText(output + [SymbolOf(d)]) && NumberOfText(output + [SymbolOf(d)]) == NumberOfText(output) * 32 + d
  {
    var s := output + [SymbolOf(d)];
    assert s[..|s| - 1] == output;
  }

  lemma EmitSymbol(output: string, value: nat, bits: nat, consumed: seq<Byte>)
    requires Buffered(output, value, bits, consumed) && 5 <= bits
    ensures Buffered(output + [SymbolOf(Quotient(value, Pow2(bits - 5)) % 32)], value, bits - 5, consumed)
  {
    hide Pow2;
    hide Quotient;
    hide Remainder;
    AppendSymbol(output, Quotient(value, Pow2(bits - 5)) % 32);
    TakeSymbol(NumberOfText(output), value, bits - 5, NumberOf(consumed));
  }

  lemma ReadByte(output: string, value: nat, bits: nat, consumed: seq<Byte>, b: Byte)
    requires Buffered(output, value, bits, consumed) && value < Pow2(bits)
    ensures Buffered(output, value * 256 + b, bits + 8, consumed + [b])
    ensures value * 256 + b < Pow2(bits + 8)
  {
    Pow2Sum(bits, 8);
    EightBits();
    hide Pow2;
    hide Remainder;
    hide NumberOfText;
    var more := consumed + [b];
    assert more[..|consumed|] == consumed;
    var p := Pow2(bits);
    ByteRoom(value, p, b);
    DivisionIsUnique(value, p, 0, value);
    DivisionIsUnique(value * 256 + b, p * 256, 0, value * 256 + b);
    Widen(NumberOfText(output), p, value, b);
  }

  lemma ByteRoom(value: nat, p: nat, b: Byte)
    requires value < p
    ensures value * 256 + b < p * 256
  {
  }

  lemma Widen(text: nat, p: nat, value: nat, b: Byte)
    ensures text * (p * 256) + (value * 256 + b) == (text * p + value) * 256 + b
  {
  }

  /** The last, partly filled symbol. */
  lemma FlushBuffer(output: string, value: nat, bits: nat, bytes: seq<Byte>)
    requires Buffered(output, value, bits, bytes) && bits < 5 && value < Pow2(bits)
    ensures value * Pow2(5 - bits) < 32
    ensures bits > 0 ==> output + [SymbolOf(value * Pow2(5 - bits))] == Encoded(bytes)
    ensures bits == 0 ==> output == Encoded(bytes)
  {
    Pow2Sum(bits, 5 - bits);
    assert Pow2(5) == 32 && Pow2(0) == 1;
    hide Pow2;
    hide Encoded;
    hide Remainder;
    hide NumberOf;
    ScaleBelow(value, Pow2(bits), Pow2(5 - bits));
    DivisionIsUnique(value, Pow2(bits), 0, value);
    LastSymbol(output, bits, |bytes|);
    if bits > 0 {
      var d := value * Pow2(5 - bits);
      AppendSymbol(output, d);
      Fill(NumberOfText(output), value, Pow2(bits), Pow2(5 - bits));
      IsEncoded(output + [SymbolOf(d)], bytes);
    } else {
      IsEncoded(output, bytes);
    }
  }

  lemma LastSymbol(output: string, bits: nat, n: nat)
    requires 5 * |output| + bits == 8 * n && bits < 5
    ensures bits > 0 ==> Symbols(n) == |output| + 1 && Padding(n) == 5 - bits
    ensures bits == 0 ==> Symbols(n) == |output| && Padding(n) == 0
  {
  }

  lemma Fill(text: nat, value: nat, p: nat, q: nat)
    requires p * q == 32
    ensures (text * p + value) * q == text * 32 + value * q
  {
    assert text * p * q == text * (p * q);
  }

  /** A text of the right length and number is the encoding. */
  lemma IsEncoded(s: string, bytes: seq<Byte>)
    requires IsText(s) && |s| == Symbols(|bytes|) && NumberOfText(s) == NumberOf(bytes) * Pow2(Padding(|bytes|))
    ensures s == Encoded(bytes)
  {
    hide TextOf;
    TextOfNumber(s);
  }

  /**
   * The encoder. `value` never outgrows 12 bits, so shifting it in 32 bits loses nothing; shifts
   * are written as multiplications and divisions by powers of two.
   */
  method Base32Encode(bytes: seq<Byte>) returns (output: string)
    ensures output == Encoded(bytes)
    ensures |output| == Symbols(|bytes|)
  {
    hide Buffered;
    hide Pow2;
    hide Encoded;
    hide Remainder;
    hide Quotient;
    var bits: nat := 0;
    var value: nat := 0;
    output := [];
    NothingBuffered();
    var i := 0;
    while i < |bytes|
      invariant i <= |bytes| && bits < 5 && value < Pow2(bits) && value < 16
      invariant Buffered(output, value, bits, bytes[..i])
    {
      assert bytes[..i] + [bytes[i]] == bytes[..i + 1];
      ReadByte(output, value, bits, bytes[..i], bytes[i]);
      value := value * 256 + bytes[i];
      bits := bits + 8;
      while bits >= 5
        invariant bits < 13 && value < 4096
        invariant Buffered(output, value, bits, bytes[..i + 1])
      {
        EmitSymbol(output, value, bits, bytes[..i + 1]);
        output := output + [SymbolOf(Quotient(value, Pow2(bits - 5)) % 32)];
        bits := bits - 5;
      }
      MaskBuffer(output, value, bits, bytes[..i + 1]);
      value := Remainder(value, Pow2(bits));
      i := i + 1;
    }
    assert bytes[..i] == bytes;
    FlushBuffer(output, value, bits, bytes);
    EncodedLength(bytes);
    if bits > 0 {
      output := output + [SymbolOf(value * Pow2(5 - bits))];
    }
  }

  lemma NothingBuffered()
    ensures Buffered([], 0, 0, []) && Pow2(0) == 1
  {
  }

  /** Masking keeps the unread bits, fewer than five of them. */
  lemma MaskBuffer(output: string, value: nat, bits: nat, consumed: seq<Byte>)
    requires Buffered(output, value, bits, consumed) && bits < 5
    ensures Buffered(output, Remainder(value, Pow2(bits)), bits, consumed)
    ensures Remainder(value, Pow2(bits)) < Pow2(bits) <= 16
  {
    assert Pow2(bits) <= 16 by { FourBits(bits); }
    hide Pow2;
    hide Remainder;
    var p, r := Pow2(bits), Remainder(value, Pow2(bits));
    Divided(value, p);
    DivisionIsUnique(r, p, 0, r);
  }

  lemma FourBits(bits: nat)
    requires bits < 5
    ensures Pow2(bits) <= 16
  {
    assert Pow2(0) == 1 && Pow2(1) == 2 && Pow2(2) == 4 && Pow2(3) == 8 && Pow2(4) == 16;
  }

  // ── Content identifiers ───────────────────────────────────────────────────────

  /** The identifier of content whose sha2-256 digest is `digest`. */
  function CidV1Raw(digest: seq<Byte>): string
  {
    "b" + Encoded(CIDV1_RAW_SHA256_PREFIX + digest)
  }

  method ComputeCidV1Raw(digest: seq<Byte>) returns (cid: string)
    requires |digest| == 32
    ensures cid == CidV1Raw(digest)
  {
    var encoded := Base32Encode(CIDV1_RAW_SHA256_PREFIX + digest);
    cid := "b" + encoded;
  }

  /** The length, the multibase prefix and the alphabet, and nothing of what the symbols encode. */
  predicate IsValidCidV1Raw(cid: string)
  {
    |cid| == CIDV1_RAW_SHA256_LENGTH && cid[0] == 'b' && IsText(cid[1..])
  }

  /** Content with distinct digests has distinct identifiers, and each passes the validity check. */
  lemma CidsAreInjective(x: seq<Byte>, y: seq<Byte>)
    requires |x| == |y| == 32
    ensures CidV1Raw(x) == CidV1Raw(y) <==> x == y
    ensures IsValidCidV1Raw(CidV1Raw(x))
  {
    hide Encoded;
    EncodedLength(CIDV1_RAW_SHA256_PREFIX + x);
    var px, py := CIDV1_RAW_SHA256_PREFIX + x, CIDV1_RAW_SHA256_PREFIX + y;
    assert CidV1Raw(x)[1..] == Encoded(px) && CidV1Raw(y)[1..] == Encoded(py);
    DecodedIsInverse(px);
    DecodedIsInverse(py);
    assert px[4..] == x && py[4..] == y;
  }

  lemma EncodedLength(bytes: seq<Byte>)
    ensures |Encoded(bytes)| == Symbols(|bytes|) && IsText(Encoded(bytes))
  {
  }

  ghost predicate IsCid(cid: string)
  {
    exists digest: seq<Byte> :: |digest| == 32 && cid == CidV1Raw(digest)
  }

  /** The text is the encoding of its own bytes, and they start with the header. */
  predicate CarriesHeader(cid: string)
    requires IsValidCidV1Raw(cid)
  {
    var bytes := Decoded(cid[1..]);
    Encoded(bytes) == cid[1..] && CIDV1_RAW_SHA256_PREFIX <= bytes
  }

  /** The identifiers are the valid texts that also carry the header and zero padding bits. */
  lemma ValidityIsNotMembership(cid: string)
    ensures IsCid(cid) <==> IsValidCidV1Raw(cid) && CarriesHeader(cid)
  {
    hide Encoded;
    hide Decoded;
    if IsCid(cid) {
      var digest: seq<Byte> :| |digest| == 32 && cid == CidV1Raw(digest);
      CidsAreInjective(digest, digest);
      DecodedIsInverse(CIDV1_RAW_SHA256_PREFIX + digest);
      assert cid[1..] == Encoded(CIDV1_RAW_SHA256_PREFIX + digest);
    }
    if IsValidCidV1Raw(cid) {
      var bytes := Decoded(cid[1..]);
      assert |bytes| == 36 by { DecodedLength(cid[1..]); }
      if CarriesHeader(cid) {
        assert bytes == CIDV1_RAW_SHA256_PREFIX + bytes[4..];
        assert cid == "b" + cid[1..] == CidV1Raw(bytes[4..]);
      }
    }
  }

  lemma DecodedLength(s: string)
    requires IsText(s)
    ensures |Decoded(s)| == 5 * |s| / 8
  {
  }

  function Repeated(c: char, n: nat): (s: string)
    ensures |s| == n && forall i :: 0 <= i < n ==> s[i] == c
  {
    if n == 0 then [] else Repeated(c, n - 1) + [c]
  }

  lemma {:induction false} ZeroText(n: nat)
    ensures NumberOfText(Repeated('a', n)) == 0
  {
    if n > 0 {
      ZeroText(n - 1);
      assert Repeated('a', n)[..n - 1] == Repeated('a', n - 1);
    }
  }

  lemma {:induction false} ZeroBytes(n: nat)
    ensures forall i :: 0 <= i < n ==> BytesOf(0, n)[i] == 0
  {
    if n > 0 { ZeroBytes(n - 1); }
  }

  /** The structural check accepts texts that no content has as its identifier. */
  lemma SomeValidTextIsNoCid()
    ensures exists cid :: IsValidCidV1Raw(cid) && !IsCid(cid)
  {
    hide TextOf;
    hide BytesOf;
    hide NumberOfText;
    var rest := Repeated('a', 58);
    var cid := "b" + rest;
    assert cid[1..] == rest;
    ZeroText(58);
    ZeroBytes(36);
    DivisionIsUnique(0, Pow2(2), 0, 0);
    assert Decoded(rest)[0] == 0;
    ValidityIsNotMembership(cid);
  }

  // ── What every identifier starts with ─────────────────────────────────────────

  lemma QuotientSteps(v: nat, p: nat)
    requires p > 0
    ensures Quotient(v / 32, p) == Quotient(v, 32 * p)
  {
    hide Quotient;
    hide Remainder;
    var w := v / 32;
    Divided(w, p);
    Nested32(Quotient(w, p), Remainder(w, p), p);
    ProductGrows(Remainder(w, p), p, 32);
    DivisionIsUnique(v, 32 * p, Quotient(w, p), Remainder(w, p) * 32 + v % 32);
  }

  lemma Nested32(q: nat, r: nat, p: nat)
    ensures (q * p + r) * 32 == q * (32 * p) + r * 32
  {
  }

  /** The first `k` symbols are those of the number without the symbols behind them. */
  lemma {:induction false} TextPrefix(v: nat, width: nat, k: nat)
    requires k <= width
    ensures TextOf(v, width)[..k] == TextOf(Quotient(v, Pow2(5 * (width - k))), k)
    decreases width
  {
    if k < width {
      TextPrefix(v / 32, width - 1, k);
      Pow2Five(width - k);
      assert TextOf(v, width)[..k] == TextOf(v / 32, width - 1)[..k];
      QuotientSteps(v, Pow2(5 * (width - k - 1)));
      hide Pow2;
      hide Quotient;
    } else {
      DivisionIsUnique(v, 1, v, 0);
      assert TextOf(v, width)[..k] == TextOf(v, width);
      assert Pow2(0) == 1;
    }
  }

  lemma {:induction false} NumberJoins(head: seq<Byte>, tail: seq<Byte>)
    ensures NumberOf(head + tail) == NumberOf(head) * Pow2(8 * |tail|) + NumberOf(tail)
  {
    if tail == [] {
      assert head + tail == head;
    } else {
      var n := |tail| - 1;
      NumberJoins(head, tail[..n]);
      assert (head + tail)[..|head + tail| - 1] == head + tail[..n];
      Pow2Sum(8 * n, 8);
      EightBits();
      hide Pow2;
      Widened(NumberOf(head), Pow2(8 * n), NumberOf(tail[..n]), tail[n]);
    }
  }

  lemma Widened(h: nat, p: nat, t: nat, b: nat)
    ensures (h * p + t) * 256 + b == h * (p * 256) + (t * 256 + b)
  {
  }

  /** Every identifier has 59 characters and starts with "bafkrei": base32, version 1, raw, sha2-256. */
  lemma EveryCidStartsAlike(digest: seq<Byte>)
    requires |digest| == 32
    ensures |CidV1Raw(digest)| == 59 && CidV1Raw(digest)[..7] == "bafkrei"
  {
    EncodedLength(CIDV1_RAW_SHA256_PREFIX + digest);
    HeaderIsFirst(digest);
    hide Encoded;
    var encoded := Encoded(CIDV1_RAW_SHA256_PREFIX + digest);
    assert ("b" + encoded)[..7] == "b" + encoded[..6];
    assert "b" + "afkrei" == "bafkrei";
  }

  lemma HeaderIsFirst(digest: seq<Byte>)
    requires |digest| == 32
    ensures var encoded := Encoded(CIDV1_RAW_SHA256_PREFIX + digest); |encoded| == 58 && encoded[..6] == "afkrei"
  {
    hide Pow2;
    hide TextOf;
    hide NumberOf;
    hide Quotient;
    var v := NumberOf(CIDV1_RAW_SHA256_PREFIX + digest) * Pow2(2);
    HeaderQuotient(digest);
    TextPrefix(v, 58, 6);
    HeaderText();
  }

  lemma HeaderQuotient(digest: seq<Byte>)
    requires |digest| == 32
    ensures Quotient(NumberOf(CIDV1_RAW_SHA256_PREFIX + digest) * Pow2(2), Pow2(260)) == 0x554488
  {
    hide NumberOf;
    hide Pow2;
    hide Quotient;
    var d := NumberOf(digest);
    NumberJoins(CIDV1_RAW_SHA256_PREFIX, digest);
    HeaderNumber();
    NumberIsBounded(digest);
    FourTimesFour();
    TopBits(Pow2(256), d, Pow2(260));
  }

  lemma FourTimesFour()
    ensures Pow2(2) == 4 && Pow2(260) == Pow2(256) * 4 * 4
  {
    assert Pow2(0) == 1 && Pow2(1) == 2 && Pow2(2) == 4;
    Pow2Sum(256, 2);
    Pow2Sum(258, 2);
    hide Pow2;
  }

  lemma TopBits(p: nat, d: nat, scale: nat)
    requires d < p && scale == p * 4 * 4
    ensures Quotient((0x1551220 * p + d) * 4, scale) == 0x554488
  {
    hide Quotient;
    hide Remainder;
    assert 0x1551220 == 4 * 0x554488;
    DivisionIsUnique((0x1551220 * p + d) * 4, scale, 0x554488, d * 4);
  }

  lemma HeaderNumber()
    ensures NumberOf(CIDV1_RAW_SHA256_PREFIX) == 0x1551220
  {
    NumberOfMore([], 0x01);
    NumberOfMore([0x01], 0x55);
    NumberOfMore([0x01, 0x55], 0x12);
    NumberOfMore([0x01, 0x55, 0x12], 0x20);
    assert [] + [0x01] == [0x01] && [0x01] + [0x55] == [0x01, 0x55];
    assert [0x01, 0x55] + [0x12] == [0x01, 0x55, 0x12] && [0x01, 0x55, 0x12] + [0x20] == CIDV1_RAW_SHA256_PREFIX;
  }

  lemma HeaderText()
    ensures TextOf(0x554488, 6) == "afkrei"
  {
    hide TextOf;
    hide NumberOfText;
    HeaderTextStarts();
    TextOfMore("afk", 'r');
    TextOfMore("afkr", 'e');
    TextOfMore("afkre", 'i');
    assert "afk" + ['r'] == "afkr" && "afkr" + ['e'] == "afkre" && "afkre" + ['i'] == "afkrei";
    TextOfNumber("afkrei");
  }

  lemma HeaderTextStarts()
    ensures IsText("afk") && NumberOfText("afk") == 5 * 32 + 10
  {
    TextOfMore("", 'a');
    TextOfMore("a", 'f');
    TextOfMore("af", 'k');
    assert "" + ['a'] == "a" && "a" + ['f'] == "af" && "af" + ['k'] == "afk";
  }
}
