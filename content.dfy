/** The captured-payload record of type/src/content.rs: how a `Content` value is
    built from a byte buffer, and how its `data` and `digest` fields are
    written in the two serializer modes. Mime sniffing, SHA-256 and the
    mime-to-extension table are library code; they are the function-typed
    fields of `Libraries`, so every statement here holds for any such library. */
module ContentModel {
  import opened Basics

  const Sha256OutputSize: nat := 32

  type Sha256Bytes = s: seq<byte> | |s| == Sha256OutputSize
    witness seq(32, _ => 0)

  datatype Sha256Digest = Sha256Digest(hash: Sha256Bytes)

  /** Tagged union of digest algorithms; SHA-256 is the only one. */
  datatype Digest = SHA256(sha256: Sha256Digest)

  /** A mime type, by its textual form. */
  type Mime = string

  const ApplicationOctetStream: Mime := "application/octet-stream"

  datatype Content = Content(
    content_type: Mime,
    digest: Digest,
    extension: Option<string>,
    size: u64,
    data: Option<seq<byte>>)

  /** The three library calls `from_mime` composes. */
  datatype Libraries = Libraries(
    sniff: (string, seq<byte>, string) -> Option<Mime>,  // url, content, type hint
    sha256: seq<byte> -> Sha256Bytes,
    mime2ext: Mime -> Option<string>)

  /** Invariant of a content record that still carries its bytes: the size is
      their length and the digest is their hash. */
  ghost predicate Consistent(libs: Libraries, c: Content) {
    c.data.Some? ==>
      c.size == |c.data.value| && c.digest == SHA256(Sha256Digest(libs.sha256(c.data.value)))
  }

  /** The type hint handed to the sniffer: the declared type, or octet-stream when none was declared. */
  function SniffHint(declared: Option<string>): (hint: string)
    ensures declared.None? ==> hint == ApplicationOctetStream
    ensures declared.Some? ==> hint == declared.value
  {
    match declared
    case Some(ct) => ct
    case None => ApplicationOctetStream
  }

  /** `Content::from_mime`. A buffer's length always fits in u64 (it is at most isize::MAX). */
  function FromMime(libs: Libraries, url: string, declared: Option<string>, data: seq<byte>): (c: Content)
    requires |data| <= MaxU64
    ensures c.size == |data| && c.data == Some(data)
    ensures Consistent(libs, c)
    ensures c.extension == libs.mime2ext(c.content_type)
    ensures libs.sniff(url, data, SniffHint(declared)).None? ==> c.content_type == ApplicationOctetStream
    ensures libs.sniff(url, data, SniffHint(declared)).Some? ==>
              c.content_type == libs.sniff(url, data, SniffHint(declared)).value
  {
    var content_type := libs.sniff(url, data, SniffHint(declared)).GetOr(ApplicationOctetStream);
    Content(
      content_type,
      SHA256(Sha256Digest(libs.sha256(data))),
      libs.mime2ext(content_type),
      |data|,
      Some(data))
  }

  /** Content identity: the digest and size depend on the bytes alone, whatever the url or declared type. */
  lemma FromMimeDigestDependsOnlyOnData(libs: Libraries, url1: string, ct1: Option<string>,
                                        url2: string, ct2: Option<string>, data: seq<byte>)
    requires |data| <= MaxU64
    ensures FromMime(libs, url1, ct1, data).digest == FromMime(libs, url2, ct2, data).digest
    ensures FromMime(libs, url1, ct1, data).size == FromMime(libs, url2, ct2, data).size
  {
  }

  // ---------------------------------------------------------------------------
  // Serialization of `data` and of digests

  /** `Serializer::is_human_readable`: JSON is, CBOR is not. */
  datatype Mode = HumanReadable | Binary

  /** The part of serde's data model these helpers produce and consume. */
  datatype Value =
    | VNone
    | VSome(inner: Value)
    | VBytes(bytes: seq<byte>)
    | VStr(text: string)
    | VInt(n: int)
    | VSeq(items: seq<Value>)

  /** `serde_data::serialize`: human-readable output never carries the bytes. */
  function SerializeData(mode: Mode, v: Option<seq<byte>>): (out: Value)
    ensures mode == HumanReadable ==> out == VNone
    ensures mode == Binary ==> (out == VNone <==> v.None?)
  {
    if mode == HumanReadable then VNone
    else match v
      case None => VNone
      case Some(b) => VSome(VBytes(b))
  }

  /** The UTF-8 encoding of one character. */
  function Utf8Char(c: char): (b: seq<byte>)
    ensures 1 <= |b| <= 4
    ensures (c as int < 0x80) <==> |b| == 1
    ensures |b| == 1 ==> b[0] as int == c as int
  {
    var n := c as int;
    if n < 0x80 then [n as byte]
    else if n < 0x800 then [(0xC0 + n / 0x40) as byte, (0x80 + n % 0x40) as byte]
    else if n < 0x1_0000 then [(0xE0 + n / 0x1000) as byte, (0x80 + n / 0x40 % 0x40) as byte, (0x80 + n % 0x40) as byte]
    else [(0xF0 + n / 0x4_0000) as byte, (0x80 + n / 0x1000 % 0x40) as byte,
          (0x80 + n / 0x40 % 0x40) as byte, (0x80 + n % 0x40) as byte]
  }

  /** The UTF-8 bytes of a string, as `str::as_bytes` gives them. */
  function Utf8(s: string): (b: seq<byte>)
    ensures |s| <= |b| <= 4 * |s|
  {
    if s == [] then [] else Utf8Char(s[0]) + Utf8(s[1..])
  }

  /** ASCII text is its own UTF-8 encoding, one byte per character. */
  lemma {:induction false} Utf8Ascii(s: string)
    requires forall i :: 0 <= i < |s| ==> s[i] as int < 0x80
    ensures |Utf8(s)| == |s|
    ensures forall i :: 0 <= i < |s| ==> Utf8(s)[i] as int == s[i] as int
  {
    if s != [] {
      Utf8Ascii(s[1..]);
      assert Utf8(s) == Utf8Char(s[0]) + Utf8(s[1..]);
      forall i | 0 <= i < |s|
        ensures Utf8(s)[i] as int == s[i] as int
      {
        if i > 0 {
          assert s[1..][i - 1] == s[i];
        }
      }
    }
  }

  /** The elements of a sequence read as `u8`s; `None` when one is not an integer
      in 0..=255. */
  function SeqBytes(items: seq<Value>): (r: Option<seq<byte>>)
    ensures r.Some? ==> |r.value| == |items|
    ensures r.Some? ==> forall i :: 0 <= i < |items| ==> items[i] == VInt(r.value[i] as int)
  {
    if items == [] then Some([])
    else if !items[0].VInt? || !(0 <= items[0].n < 256) then None
    else match SeqBytes(items[1..])
      case None => None
      case Some(rest) => Some([items[0].n as byte] + rest)
  }

  /** Every sequence of `u8` elements reads back as its bytes. */
  lemma {:induction false} SeqBytesOfBytes(b: seq<byte>)
    ensures SeqBytes(seq(|b|, i requires 0 <= i < |b| => VInt(b[i] as int))) == Some(b)
  {
    var items := seq(|b|, i requires 0 <= i < |b| => VInt(b[i] as int));
    if b != [] {
      assert items[1..] == seq(|b[1..]|, i requires 0 <= i < |b[1..]| => VInt(b[1..][i] as int));
      SeqBytesOfBytes(b[1..]);
      assert [b[0]] + b[1..] == b;
    }
  }

  /** `serde_data::deserialize`, which is `serde_bytes::deserialize` for an optional
      byte buffer (the same in both modes): the buffer's visitor takes bytes, a
      string (its UTF-8 bytes) or a sequence of `u8`. */
  function DeserializeData(v: Value): (r: Result<Option<seq<byte>>, string>)
    ensures v == VNone ==> r == Ok(None)
    ensures v.VSome? && v.inner.VBytes? ==> r == Ok(Some(v.inner.bytes))
    ensures v.VSome? && v.inner.VStr? ==> r == Ok(Some(Utf8(v.inner.text)))
    ensures v.VSome? && v.inner.VSeq? ==> (r.Ok? <==> SeqBytes(v.inner.items).Some?)
    ensures v.VSome? && v.inner.VSeq? && r.Ok? ==> r == Ok(Some(SeqBytes(v.inner.items).value))
    ensures r.Ok? && r.value.Some? ==> v.VSome? && (v.inner.VBytes? || v.inner.VStr? || v.inner.VSeq?)
    ensures !v.VNone? && !v.VSome? ==> r.Err?
  {
    match v
    case VNone => Ok(None)
    case VSome(VBytes(b)) => Ok(Some(b))
    case VSome(VStr(t)) => Ok(Some(Utf8(t)))
    case VSome(VSeq(items)) =>
      (match SeqBytes(items)
       case Some(b) => Ok(Some(b))
       case None => Err("invalid value: expected a sequence of u8"))
    case _ => Err("invalid type: expected an optional byte array")
  }

  /** The three spellings of the same buffer read back alike. */
  lemma DeserializeDataSpellings(b: seq<byte>, t: string)
    requires forall i :: 0 <= i < |t| ==> t[i] as int < 0x80
    requires |t| == |b| && forall i :: 0 <= i < |b| ==> b[i] as int == t[i] as int
    ensures DeserializeData(VSome(VStr(t))) == DeserializeData(VSome(VBytes(b)))
    ensures DeserializeData(VSome(VSeq(seq(|b|, i requires 0 <= i < |b| => VInt(b[i] as int))))) == Ok(Some(b))
  {
    Utf8Ascii(t);
    assert Utf8(t) == b;
    SeqBytesOfBytes(b);
  }

  /** Binary mode round-trips the payload; human-readable mode always reads back none. */
  lemma DataRoundTrip(mode: Mode, v: Option<seq<byte>>)
    ensures DeserializeData(SerializeData(mode, v)) == Ok(if mode == Binary then v else None)
  {
  }

  /** Lower-case hexadecimal digit, as the `hex` crate writes it. */
  function HexDigit(d: nat): (c: char)
    requires d < 16
    ensures '0' <= c <= '9' || 'a' <= c <= 'f'
  {
    if d < 10 then (('0' as int) + d) as char else (('a' as int) + d - 10) as char
  }

  /** Value of a hexadecimal digit of either case; `None` for any other character. */
  function HexValue(c: char): (v: Option<nat>)
    ensures v.Some? ==> v.value < 16
  {
    if '0' <= c <= '9' then Some((c as int) - ('0' as int))
    else if 'a' <= c <= 'f' then Some((c as int) - ('a' as int) + 10)
    else if 'A' <= c <= 'F' then Some((c as int) - ('A' as int) + 10)
    else None
  }

  function HexEncode(b: seq<byte>): (s: string)
    ensures |s| == 2 * |b|
  {
    if b == [] then []
    else [HexDigit(b[0] as nat / 16), HexDigit(b[0] as nat % 16)] + HexEncode(b[1..])
  }

  /** The `hex` crate's decoding errors. */
  datatype HexError = OddLength | InvalidStringLength | InvalidHexCharacter(c: char, index: nat)

  /** Decodes digit pairs; `at` is the position of `s` in the whole string, for error reports. */
  function DecodePairs(s: string, at: nat): (r: Result<seq<byte>, HexError>)
    requires |s| % 2 == 0
    ensures r.Ok? ==> 2 * |r.value| == |s|
  {
    if s == [] then Ok([])
    else match (HexValue(s[0]), HexValue(s[1]))
      case (None, _) => Err(InvalidHexCharacter(s[0], at))
      case (Some(_), None) => Err(InvalidHexCharacter(s[1], at + 1))
      case (Some(hi), Some(lo)) =>
        match DecodePairs(s[2..], at + 2)
        case Err(e) => Err(e)
        case Ok(rest) => Ok([(hi * 16 + lo) as byte] + rest)
  }

  /** `<[u8; n] as FromHex>::from_hex`: odd length, then wrong length, then bad digits. */
  function HexDecode(s: string, n: nat): (r: Result<seq<byte>, HexError>)
    ensures r.Ok? ==> |r.value| == n
    ensures |s| % 2 != 0 ==> r == Err(OddLength)
  {
    if |s| % 2 != 0 then Err(OddLength)
    else if |s| / 2 != n then Err(InvalidStringLength)
    else DecodePairs(s, 0)
  }

  lemma {:induction false} DecodeEncodedPairs(b: seq<byte>, at: nat)
    ensures DecodePairs(HexEncode(b), at) == Ok(b)
  {
    if b != [] {
      var s := HexEncode(b);
      var hi, lo := b[0] as nat / 16, b[0] as nat % 16;
      assert s[0] == HexDigit(hi) && s[1] == HexDigit(lo);
      assert HexValue(s[0]) == Some(hi) && HexValue(s[1]) == Some(lo);
      assert s[2..] == HexEncode(b[1..]);
      DecodeEncodedPairs(b[1..], at + 2);
      assert [(hi * 16 + lo) as byte] + b[1..] == b;
    }
  }

  /** Hex text of any buffer decodes back to it, at its own length. */
  lemma {:induction false} HexRoundTrip(b: seq<byte>)
    ensures HexDecode(HexEncode(b), |b|) == Ok(b)
  {
    var s := HexEncode(b);
    assert |s| % 2 == 0 && |s| / 2 == |b| by { assert |s| == |b| + |b|; }
    DecodeEncodedPairs(b, 0);
  }

  datatype DigestError = InvalidType | InvalidLength(length: nat) | InvalidHex(hex: HexError)

  /** `serde_digest::serialize`: hex text when human-readable, raw bytes otherwise. */
  function SerializeDigest(mode: Mode, d: Sha256Digest): (v: Value)
    ensures mode == HumanReadable ==> v.VStr? && |v.text| == 2 * Sha256OutputSize
    ensures mode == Binary ==> v == VBytes(d.hash)
  {
    match mode
    case HumanReadable => VStr(HexEncode(d.hash))
    case Binary => VBytes(d.hash)
  }

  /** `serde_digest::deserialize` for a SHA-256 digest. */
  function DeserializeDigest(mode: Mode, v: Value): (r: Result<Sha256Digest, DigestError>)
    ensures mode == Binary ==> (r.Ok? <==> v.VBytes? && |v.bytes| == Sha256OutputSize)
    ensures mode == Binary && r.Ok? ==> r.value.hash == v.bytes
    ensures mode == HumanReadable && r.Ok? ==> v.VStr? && |v.text| == 2 * Sha256OutputSize
  {
    match (mode, v)
    case (HumanReadable, VStr(s)) =>
      (match HexDecode(s, Sha256OutputSize)
       case Ok(b) => Ok(Sha256Digest(b))
       case Err(e) => Err(InvalidHex(e)))
    case (Binary, VBytes(b)) =>
      if |b| == Sha256OutputSize then Ok(Sha256Digest(b)) else Err(InvalidLength(|b|))
    case _ => Err(InvalidType)
  }

  /** A digest written in either mode reads back unchanged. */
  lemma DigestRoundTrip(mode: Mode, d: Sha256Digest)
    ensures DeserializeDigest(mode, SerializeDigest(mode, d)) == Ok(d)
  {
    if mode == HumanReadable {
      HexRoundTrip(d.hash);
    }
  }
}
