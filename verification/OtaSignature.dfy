/**
  The strict DER reader of `sign_ota_bundle.py`, which turns an ECDSA-Sig-Value
  (section 2.2.3 of RFC 3279) into 64 raw octets, and the fixed-layout manifest.
*/
module OtaSignature {
  import opened Wrappers
  import opened Bytes

  datatype Failure = BundleFailure(reason: string)

  const SEQUENCE_TAG: Byte := 0x30
  const INTEGER_TAG: Byte := 0x02
  const SCALAR_WIDTH := 32

  // -------------------------------------------------------------- the reader

  function DerLength(document: seq<Byte>, offset: nat): (r: Result<(nat, nat), Failure>)
    ensures r.Success? ==> offset < r.value.1 <= |document|
  {
    if offset >= |document| then Failure(BundleFailure("truncated ECDSA signature"))
    else
      var first := document[offset];
      if first < 0x80 then Success((first, offset + 1))
      else LongLength(document, offset + 1, first - 0x80)
  }

  function LongLength(document: seq<Byte>, start: nat, octets: nat): (r: Result<(nat, nat), Failure>)
    ensures r.Success? ==> r.value == (r.value.0, start + octets) && start + octets <= |document|
  {
    if octets == 0 || octets > 2 || start + octets > |document|
    then Failure(BundleFailure("invalid ECDSA signature length"))
    else
      var value := Value(document[start..start + octets]);
      if value < 0x80 then Failure(BundleFailure("non-canonical ECDSA signature length"))
      else Success((value, start + octets))
  }

  /** The octets of an INTEGER as an unsigned scalar of fixed width. */
  function UnsignedContent(value: seq<Byte>): (r: Result<seq<Byte>, Failure>)
    ensures r.Success? ==> |r.value| == SCALAR_WIDTH
  {
    if value == [] || value[0] >= 0x80
    then Failure(BundleFailure("invalid ECDSA integer"))
    else if |value| > 1 && value[0] == 0 && value[1] < 0x80
    then Failure(BundleFailure("non-canonical ECDSA integer"))
    else
      var stripped := if |value| > 1 && value[0] == 0 then value[1..] else value;
      if |stripped| > SCALAR_WIDTH
      then Failure(BundleFailure("ECDSA integer exceeds P-256"))
      else Success(PadLeft(stripped, SCALAR_WIDTH))
  }

  function DerInteger(document: seq<Byte>, offset: nat): (r: Result<(seq<Byte>, nat), Failure>)
    ensures r.Success? ==> |r.value.0| == SCALAR_WIDTH && offset < r.value.1 <= |document|
  {
    if offset >= |document| || document[offset] != INTEGER_TAG
    then Failure(BundleFailure("invalid ECDSA integer"))
    else
      var (size, start) :- DerLength(document, offset + 1);
      var end := start + size;
      if end > |document| then Failure(BundleFailure("invalid ECDSA integer"))
      else
        var scalar :- UnsignedContent(document[start..end]);
        Success((scalar, end))
  }

  function RawEcdsaSignature(document: seq<Byte>): (r: Result<seq<Byte>, Failure>)
    ensures r.Success? ==> |r.value| == 2 * SCALAR_WIDTH
  {
    if document == [] || document[0] != SEQUENCE_TAG
    then Failure(BundleFailure("invalid ECDSA signature"))
    else
      var (size, first) :- DerLength(document, 1);
      if first + size != |document|
      then Failure(BundleFailure("invalid ECDSA signature envelope"))
      else
        var (r, second) :- DerInteger(document, first);
        var (s, end) :- DerInteger(document, second);
        if end != |document| then Failure(BundleFailure("trailing ECDSA signature data"))
        else Success(r + s)
  }

  // --------------------------------------------- the encoder, as X.690 puts it

  /** The fewest content octets whose two's complement value is `n` (clause 8.3.2). */
  function Content(n: nat): (c: seq<Byte>)
    ensures c != [] && c[0] < 0x80
  {
    var m := Magnitude(n);
    if m == [] || m[0] >= 0x80 then [0] + m else m
  }

  function EncodeInteger(n: nat): seq<Byte>
    requires |Content(n)| < 0x80
  {
    [INTEGER_TAG, |Content(n)|] + Content(n)
  }

  function Scalar(n: nat): seq<Byte>
    requires n < Pow256(SCALAR_WIDTH)
  {
    MagnitudeWidth(n, SCALAR_WIDTH);
    PadLeft(Magnitude(n), SCALAR_WIDTH)
  }

  lemma ContentWidth(n: nat)
    requires n < Pow256(SCALAR_WIDTH)
    ensures |Content(n)| <= 33
  {
    MagnitudeWidth(n, SCALAR_WIDTH);
  }

  function EncodeSignature(r: nat, s: nat): seq<Byte>
    requires r < Pow256(SCALAR_WIDTH) && s < Pow256(SCALAR_WIDTH)
  {
    ContentWidth(r);
    ContentWidth(s);
    var body := EncodeInteger(r) + EncodeInteger(s);
    [SEQUENCE_TAG, |body|] + body
  }

  // ------------------------------------------------------------- bijection

  /** No shorter writing: content octets are minimal and determine the number. */
  lemma ContentIsMinimal(n: nat)
    ensures Value(Content(n)) == n
    ensures |Content(n)| > 1 && Content(n)[0] == 0 ==> Content(n)[1] >= 0x80
  {
    ValueOfMagnitude(n);
    assert Zeros(1) == [0];
    ValueIgnoresLeadingZeros(1, Magnitude(n));
  }

  /** Content octets the reader does not object to are `Content` of their value. */
  lemma AcceptedContent(c: seq<Byte>)
    requires c != [] && c[0] < 0x80
    requires |c| > 1 && c[0] == 0 ==> c[1] >= 0x80
    ensures Content(Value(c)) == c
  {
    if c[0] != 0 {
      MagnitudeOfValue(c);
    } else {
      assert Zeros(1) == [0] && c == [0] + c[1..];
      ValueIgnoresLeadingZeros(1, c[1..]);
      MagnitudeOfValue(c[1..]);
    }
  }

  /** The content check passes on exactly the contents of 256-bit numbers. */
  lemma ContentBijection(c: seq<Byte>, scalar: seq<Byte>)
    requires |scalar| == SCALAR_WIDTH
    ensures UnsignedContent(c) == Success(scalar)
            <==> Value(scalar) < Pow256(SCALAR_WIDTH) && c == Content(Value(scalar)) && scalar == Scalar(Value(scalar))
  {
    hide UnsignedContent, Content, Value, Scalar, Pow256;
    if UnsignedContent(c) == Success(scalar) {
      ContentAccepted(c);
    }
    if Value(scalar) < Pow256(SCALAR_WIDTH) {
      ContentReads(Value(scalar));
    }
  }

  lemma ContentAccepted(c: seq<Byte>)
    requires UnsignedContent(c).Success?
    ensures var scalar := UnsignedContent(c).value;
            Value(scalar) < Pow256(SCALAR_WIDTH) && c == Content(Value(scalar)) && scalar == Scalar(Value(scalar))
  {
    hide Value, Content, Pow256;
    var stripped := if |c| > 1 && c[0] == 0 then c[1..] else c;
    AcceptedContent(c);
    StrippedValue(c, stripped);
    ValueIgnoresLeadingZeros(SCALAR_WIDTH - |stripped|, stripped);
    StrippedIsMagnitude(c, stripped);
    MagnitudeWidth(Value(c), SCALAR_WIDTH);
  }

  lemma ContentReads(n: nat)
    requires n < Pow256(SCALAR_WIDTH)
    ensures UnsignedContent(Content(n)) == Success(Scalar(n))
  {
    hide Magnitude, Pow256;
    var c := Content(n);
    ContentIsMinimal(n);
    MagnitudeWidth(n, SCALAR_WIDTH);
    if n == 0 {
      assert c == [0];
      assert PadLeft([0], SCALAR_WIDTH) == PadLeft([], SCALAR_WIDTH);
    } else if c[0] == 0 {
      assert c[1..] == Magnitude(n);
    }
  }

  lemma StrippedIsMagnitude(c: seq<Byte>, stripped: seq<Byte>)
    requires Content(Value(c)) == c && |stripped| <= SCALAR_WIDTH
    requires stripped == if |c| > 1 && c[0] == 0 then c[1..] else c
    ensures |Magnitude(Value(c))| <= SCALAR_WIDTH
    ensures PadLeft(stripped, SCALAR_WIDTH) == PadLeft(Magnitude(Value(c)), SCALAR_WIDTH)
  {
    if c == [0] {
      assert PadLeft([0], SCALAR_WIDTH) == PadLeft([], SCALAR_WIDTH);
    }
  }

  lemma StrippedValue(c: seq<Byte>, stripped: seq<Byte>)
    requires stripped == if |c| > 1 && c[0] == 0 then c[1..] else c
    ensures Value(stripped) == Value(c)
  {
    assert Zeros(1) == [0];
    if |c| > 1 && c[0] == 0 {
      assert c == [0] + c[1..];
      ValueIgnoresLeadingZeros(1, c[1..]);
    }
  }

  /** An integer in short form at `offset` is read back and skipped. */
  lemma ReadsEncodedInteger(prefix: seq<Byte>, n: nat, suffix: seq<Byte>)
    requires n < Pow256(SCALAR_WIDTH) && |Content(n)| < 0x80
    ensures DerInteger(prefix + EncodeInteger(n) + suffix, |prefix|)
            == Success((Scalar(n), |prefix| + |EncodeInteger(n)|))
  {
    hide Value, Content, Scalar, UnsignedContent, Pow256;
    var c := Content(n);
    var document, start := prefix + EncodeInteger(n) + suffix, |prefix| + 2;
    assert document[|prefix|] == INTEGER_TAG && document[|prefix| + 1] == |c|;
    assert document[start..start + |c|] == c;
    ContentReads(n);
  }

  /** What the reader takes for an integer is its only encoding, in short form. */
  lemma ReadIsEncoded(document: seq<Byte>, offset: nat)
    requires DerInteger(document, offset).Success?
    ensures var (scalar, end) := DerInteger(document, offset).value;
            && Value(scalar) < Pow256(SCALAR_WIDTH)
            && |Content(Value(scalar))| < 0x80
            && Scalar(Value(scalar)) == scalar
            && document[offset..end] == EncodeInteger(Value(scalar))
  {
    hide Value, Content, Scalar, UnsignedContent, Pow256;
    var (size, start) := DerLength(document, offset + 1).value;
    var (scalar, end) := DerInteger(document, offset).value;
    var c := document[start..end];
    ContentBijection(c, scalar);
    ContentWidth(Value(scalar));
    ShortForm(document, offset + 1);
    assert document[offset..end] == [INTEGER_TAG, size] + c;
  }

  lemma ShortForm(document: seq<Byte>, offset: nat)
    requires DerLength(document, offset).Success? && DerLength(document, offset).value.0 < 0x80
    ensures DerLength(document, offset).value == (document[offset] as nat, offset + 1)
  {
  }

  /** Every pair of unsigned 256-bit integers survives encoding and reading. */
  lemma ReaderInvertsEncoder(r: nat, s: nat)
    requires r < Pow256(SCALAR_WIDTH) && s < Pow256(SCALAR_WIDTH)
    ensures RawEcdsaSignature(EncodeSignature(r, s)) == Success(Scalar(r) + Scalar(s))
  {
    hide Value, Content, Scalar, DerInteger, Pow256;
    ContentWidth(r);
    ContentWidth(s);
    var a, b := EncodeInteger(r), EncodeInteger(s);
    var document := EncodeSignature(r, s);
    var head: seq<Byte> := [SEQUENCE_TAG, |a + b|];
    assert document == head + a + b;
    ReadsEncodedInteger(head, r, b);
    assert document + [] == document;
    ReadsEncodedInteger(head + a, s, []);
    assert document[0] == SEQUENCE_TAG && document[1] == |a + b|;
  }

  /** Whatever the reader accepts is the one canonical encoding of its result. */
  lemma EncoderInvertsReader(document: seq<Byte>)
    requires RawEcdsaSignature(document).Success?
    ensures var raw := RawEcdsaSignature(document).value;
            var r, s := Value(raw[..SCALAR_WIDTH]), Value(raw[SCALAR_WIDTH..]);
            && r < Pow256(SCALAR_WIDTH) && s < Pow256(SCALAR_WIDTH)
            && raw == Scalar(r) + Scalar(s)
            && document == EncodeSignature(r, s)
  {
    hide Value, Content, Scalar, DerInteger, Pow256;
    var (size, first) := DerLength(document, 1).value;
    var (a, second) := DerInteger(document, first).value;
    var (b, end) := DerInteger(document, second).value;
    var raw := RawEcdsaSignature(document).value;
    assert raw[..SCALAR_WIDTH] == a && raw[SCALAR_WIDTH..] == b;
    ReadIsEncoded(document, first);
    ReadIsEncoded(document, second);
    ContentWidth(Value(a));
    ContentWidth(Value(b));
    assert document[first..] == document[first..second] + document[second..end];
    ShortForm(document, 1);
    assert document == [document[0], document[1]] + document[2..];
  }

  /** The codec is a bijection between 64-octet strings and accepted documents. */
  lemma SignatureBijection(document: seq<Byte>, raw: seq<Byte>)
    requires |raw| == 2 * SCALAR_WIDTH
    ensures Value(raw[..SCALAR_WIDTH]) < Pow256(SCALAR_WIDTH)
    ensures Value(raw[SCALAR_WIDTH..]) < Pow256(SCALAR_WIDTH)
    ensures RawEcdsaSignature(document) == Success(raw)
            <==> document == EncodeSignature(Value(raw[..SCALAR_WIDTH]), Value(raw[SCALAR_WIDTH..]))
  {
    var a, b := raw[..SCALAR_WIDTH], raw[SCALAR_WIDTH..];
    ScalarOfValue(a);
    ScalarOfValue(b);
    assert raw == a + b;
    if RawEcdsaSignature(document) == Success(raw) {
      EncoderInvertsReader(document);
    }
    ReaderInvertsEncoder(Value(a), Value(b));
  }

  lemma ScalarOfValue(a: seq<Byte>)
    requires |a| == SCALAR_WIDTH
    ensures Value(a) < Pow256(SCALAR_WIDTH) && Scalar(Value(a)) == a
  {
    var k := LeadingZeros(a);
    var m := a[k..];
    assert a == Zeros(k) + m;
    ValueIgnoresLeadingZeros(k, m);
    MagnitudeOfValue(m);
    MagnitudeWidth(Value(a), SCALAR_WIDTH);
  }

  function LeadingZeros(a: seq<Byte>): (k: nat)
    ensures k <= |a| && (k < |a| ==> a[k] != 0) && a[..k] == Zeros(k)
  {
    if a == [] || a[0] != 0 then 0
    else
      var rest := LeadingZeros(a[1..]);
      assert a[..rest + 1] == [a[0]] + a[1..][..rest];
      rest + 1
  }

  /** Every length octet of an accepted document is in short form. */
  lemma LongFormIsUnreachable(document: seq<Byte>)
    requires RawEcdsaSignature(document).Success?
    ensures |document| <= 72 && document[1] < 0x80
    ensures |document| > 3 && document[3] < 0x80
    ensures |document| > 5 + document[3] && document[5 + document[3]] < 0x80
  {
    hide Value, Content, Scalar, DerInteger, RawEcdsaSignature, Pow256;
    EncoderInvertsReader(document);
    var raw := RawEcdsaSignature(document).value;
    var r, s := Value(raw[..SCALAR_WIDTH]), Value(raw[SCALAR_WIDTH..]);
    ContentWidth(r);
    ContentWidth(s);
    EnvelopeOctets(document, EncodeInteger(r), EncodeInteger(s));
  }

  lemma EnvelopeOctets(document: seq<Byte>, a: seq<Byte>, b: seq<Byte>)
    requires 2 <= |a| <= 35 && |a| - 2 == a[1] && 2 <= |b| <= 35 && |b| - 2 == b[1]
    requires document == [SEQUENCE_TAG, |a + b|] + (a + b)
    ensures |document| <= 72 && document[1] < 0x80 && document[3] == a[1]
    ensures document[5 + document[3]] == b[1]
  {
    assert document[3] == (a + b)[1];
    assert document[5 + a[1]] == (a + b)[|a| + 1];
  }

  /** The fewest octets of a definite length, as DER wants it (clause 10.1). */
  function EncodeLength(size: nat): seq<Byte>
    requires size < 0x1_0000
  {
    if size < 0x80 then [size] else
    var m := Magnitude(size);
    MagnitudeWidth(size, 2);
    assert Pow256(2) == 0x1_0000 by { assert Pow256(0) == 1 && Pow256(1) == 256; }
    [0x80 + |m|] + m
  }

  /**
    On its own, the length reader also takes 0x82 0x00 nn for nn >= 0x80. That
    is the only length it takes that is not in its shortest form.
  */
  lemma LengthIsShortestExcept(document: seq<Byte>, offset: nat)
    requires DerLength(document, offset).Success?
    ensures var (size, next) := DerLength(document, offset).value;
            && size < 0x1_0000
            && (document[offset..next] == EncodeLength(size)
                <==> !(document[offset] == 0x82 && document[offset + 1] == 0))
  {
    hide Value, EncodeLength;
    var (size, next) := DerLength(document, offset).value;
    var first := document[offset];
    var m := document[offset + 1..next];
    assert document[offset..next] == [first] + m;
    if first < 0x80 {
      ShortLength(first);
    } else if first == 0x81 {
      assert m == [m[0]];
      ValueOfOne(m[0]);
      OneOctet(m[0]);
    } else {
      assert m == [m[0], m[1]];
      ValueOfTwo(m[0], m[1]);
      TwoOctets(m[0], m[1]);
    }
  }

  lemma ShortLength(a: Byte)
    requires a < 0x80
    ensures EncodeLength(a) == [a]
  {
  }

  lemma OneOctet(a: Byte)
    requires a >= 0x80
    ensures EncodeLength(a) == [0x81, a]
  {
    hide Value;
    ValueOfOne(a);
    MagnitudeOfValue([a]);
  }

  lemma TwoOctets(a: Byte, b: Byte)
    requires 256 * (a as int) + b as int >= 0x80
    ensures EncodeLength(256 * (a as int) + b as int) == if a == 0 then [0x81, b] else [0x82, a, b]
  {
    hide Value;
    ValueOfTwo(a, b);
    if a == 0 {
      OneOctet(b);
    } else {
      MagnitudeOfValue([a, b]);
    }
  }

  lemma NonMinimalLengthAlone()
    ensures DerLength([0x82, 0x00, 0x80], 0) == Success((0x80, 3))
    ensures EncodeLength(0x80) == [0x81, 0x80]
  {
    var document: seq<Byte> := [0x82, 0x00, 0x80];
    var m := document[1..3];
    assert m == [0x00, 0x80];
    ValueOfTwo(0x00, 0x80);
    assert Magnitude(0) == [] && Magnitude(0x80) == [0x80];
  }

  /** The octets of an encoding: a sequence of two integers in short form, each minimal and not negative. */
  lemma EncodingOctets(r: nat, s: nat)
    requires r < Pow256(SCALAR_WIDTH) && s < Pow256(SCALAR_WIDTH)
    ensures var document := EncodeSignature(r, s);
            && |document| >= 8 && document[0] == 0x30 && document[1] == |document| - 2 && document[2] == 0x02
            && 1 <= document[3] && 6 + document[3] < |document|
            && document[4 + document[3]] == 0x02 && document[5 + document[3]] == |document| - 6 - document[3]
            && MinimalInteger(document[4..4 + document[3]], r) && MinimalInteger(document[6 + document[3]..], s)
  {
    hide Value, Pow256, Magnitude, Content;
    ContentWidth(r);
    ContentWidth(s);
    ContentIsMinimal(r);
    ContentIsMinimal(s);
    var a, b := Content(r), Content(s);
    var document := EncodeSignature(r, s);
    assert document == [0x30, |a| + |b| + 4, 0x02, |a|] + a + [0x02, |b|] + b;
    assert document[4..4 + |a|] == a && document[6 + |a|..] == b;
  }

  /** The two's complement writing of a number, with no octet too many. */
  predicate MinimalInteger(c: seq<Byte>, n: nat) {
    c != [] && Value(c) == n && c[0] < 0x80 && (|c| > 1 && c[0] == 0 ==> c[1] >= 0x80)
  }

  /** A scalar is its number in 32 octets. */
  lemma ScalarOctets(n: nat)
    requires n < Pow256(SCALAR_WIDTH)
    ensures |Scalar(n)| == 32 && Value(Scalar(n)) == n
  {
    MagnitudeWidth(n, SCALAR_WIDTH);
    FixedWidthRoundTrip(n, SCALAR_WIDTH);
  }

  // ------------------------------------------------------------- manifest

  const BOARD := "esp32-s3-rlcd-4.2"
  const MAGIC := "S3RLCDOTA1"
  const MAXIMUM_IMAGE_BYTES := 1_740_800

  datatype Metadata = Metadata(version: string, board: string, imageLength: int,
                               digest: seq<Byte>, keyId: int, minimumProtocol: int)

  predicate Digit(c: char) { '0' <= c <= '9' }

  predicate VersionChar(c: char) {
    Digit(c) || 'A' <= c <= 'Z' || 'a' <= c <= 'z' || c == '.' || c == '+' || c == '-'
  }

  predicate VersionPattern(version: string) {
    && 1 <= |version| <= 31 && Digit(version[0])
    && forall i :: 1 <= i < |version| ==> VersionChar(version[i])
  }

  function Ascii(text: string): (b: seq<Byte>)
    requires forall i :: 0 <= i < |text| ==> text[i] as int < 128
    ensures |b| == |text| && forall i :: 0 <= i < |text| ==> b[i] == text[i] as int
  {
    seq(|text|, i requires 0 <= i < |text| => text[i] as int)
  }

  function PadRight(b: seq<Byte>, width: nat): (p: seq<Byte>)
    requires |b| <= width
    ensures |p| == width
  {
    b + Zeros(width - |b|)
  }

  /** `int.to_bytes(4, "big")`. */
  function Word(n: int): (w: seq<Byte>)
    requires 0 <= n <= 0xFFFF_FFFF
    ensures |w| == 4 && Value(w) == n
  {
    assert Pow256(4) == 0x1_0000_0000 by {
      assert Pow256(0) == 1 && Pow256(1) == 256 && Pow256(2) == 0x1_0000 && Pow256(3) == 0x100_0000;
    }
    FixedWidthRoundTrip(n, 4);
    PadLeft(Magnitude(n), 4)
  }

  predicate ValidMetadata(m: Metadata) {
    && VersionPattern(m.version) && m.board == BOARD
    && 0 < m.imageLength <= MAXIMUM_IMAGE_BYTES && |m.digest| == 32
    && 0 < m.keyId <= 0xFFFF_FFFF && 0 < m.minimumProtocol <= 0xFFFF_FFFF
  }

  function CanonicalManifest(m: Metadata): Result<seq<Byte>, Failure> {
    if !ValidMetadata(m) then Failure(BundleFailure("invalid OTA manifest metadata"))
    else
      Success(Ascii(MAGIC) + Word(m.keyId) + Word(m.minimumProtocol) + Word(m.imageLength)
              + PadRight(Ascii(m.board), 48) + PadRight(Ascii(m.version), 32) + m.digest)
  }

  lemma ManifestFields(m: Metadata)
    requires ValidMetadata(m)
    ensures var bytes := CanonicalManifest(m).value;
            && |bytes| == 134
            && bytes[10..14] == Word(m.keyId) && bytes[14..18] == Word(m.minimumProtocol)
            && bytes[18..22] == Word(m.imageLength)
            && bytes[70..102] == PadRight(Ascii(m.version), 32) && bytes[102..] == m.digest
  {
  }

  /** When there is a manifest, and every octet of it. */
  lemma ManifestOctets(m: Metadata)
    ensures CanonicalManifest(m).Success? <==>
              && 1 <= |m.version| <= 31 && '0' <= m.version[0] <= '9' && (forall i :: 1 <= i < |m.version| ==> VersionChar(m.version[i]))
              && m.board == "esp32-s3-rlcd-4.2" && 0 < m.imageLength <= 1_740_800 && |m.digest| == 32
              && 0 < m.keyId <= 0xFFFF_FFFF && 0 < m.minimumProtocol <= 0xFFFF_FFFF
    ensures CanonicalManifest(m).Success? ==>
              var bytes := CanonicalManifest(m).value;
              && |bytes| == 134
              && (forall i :: 0 <= i < 10 ==> bytes[i] == "S3RLCDOTA1"[i] as int)
              && Value(bytes[10..14]) == m.keyId && Value(bytes[14..18]) == m.minimumProtocol
              && Value(bytes[18..22]) == m.imageLength
              && (forall i :: 0 <= i < 48 ==> bytes[22 + i] == if i < |m.board| then m.board[i] as int else 0)
              && (forall i :: 0 <= i < 32 ==> bytes[70 + i] == if i < |m.version| then m.version[i] as int else 0)
              && bytes[102..] == m.digest
  {
    hide Value, VersionChar;
    if ValidMetadata(m) {
      VersionIsAscii(m.version);
      ManifestFields(m);
      var bytes := CanonicalManifest(m).value;
      var head := Ascii(MAGIC) + Word(m.keyId) + Word(m.minimumProtocol) + Word(m.imageLength);
      var board, version := PadRight(Ascii(m.board), 48), PadRight(Ascii(m.version), 32);
      assert bytes == head + board + (version + m.digest);
      forall i | 0 <= i < 48
        ensures bytes[22 + i] == board[i]
      {
      }
      forall i | 0 <= i < 32
        ensures bytes[70 + i] == version[i]
      {
        assert bytes[70..102][i] == version[i];
      }
    }
  }

  lemma VersionIsAscii(version: string)
    requires VersionPattern(version)
    ensures forall i :: 0 <= i < |version| ==> version[i] as int < 128
  {
  }

  /** Zero padding cannot be confused with a version, so the length is implied. */
  lemma PaddedVersionInjective(a: string, b: string)
    requires VersionPattern(a) && VersionPattern(b)
    requires PadRight(Ascii(a), 32) == PadRight(Ascii(b), 32)
    ensures a == b
  {
    var p, q := PadRight(Ascii(a), 32), PadRight(Ascii(b), 32);
    forall i | 0 <= i < 32
      ensures (p[i] != 0 <==> i < |a|) && (q[i] != 0 <==> i < |b|)
    {
    }
    assert p[|a|] == 0 && q[|b|] == 0;
    forall i | 0 <= i < |a|
      ensures a[i] == b[i]
    {
      assert p[i] == a[i] as int && q[i] == b[i] as int;
    }
  }

  /** Manifests are 134 octets, and different metadata give different manifests. */
  lemma ManifestInjective(a: Metadata, b: Metadata)
    requires CanonicalManifest(a).Success? && CanonicalManifest(b).Success?
    ensures |CanonicalManifest(a).value| == 134
    ensures CanonicalManifest(a) == CanonicalManifest(b) ==> a == b
  {
    ManifestFields(a);
    ManifestFields(b);
    if CanonicalManifest(a) == CanonicalManifest(b) {
      PaddedVersionInjective(a.version, b.version);
    }
  }
}
