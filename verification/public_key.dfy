/** OpenSSH public keys: base64 (RFC 4648, section 4), the ssh-ed25519 blob
    (RFC 8709, section 4), and the client's normal form. */
module PublicKey {
  import opened Text
  import opened Words

  type Byte = b: nat | b < 256

  // ----- Base64 -----

  function DigitChar(v: nat): char
    requires v < 64
  {
    if v < 26 then 'A' + v as char
    else if v < 52 then 'a' + (v - 26) as char
    else if v < 62 then '0' + (v - 52) as char
    else if v == 62 then '+' else '/'
  }

  function Digit(c: char): (v: Option<nat>)
    ensures v.Some? ==> v.value < 64 && DigitChar(v.value) == c
  {
    if 'A' <= c <= 'Z' then Some((c - 'A') as nat)
    else if 'a' <= c <= 'z' then Some(26 + (c - 'a') as nat)
    else if '0' <= c <= '9' then Some(52 + (c - '0') as nat)
    else if c == '+' then Some(62)
    else if c == '/' then Some(63)
    else None
  }

  function Encode(bytes: seq<Byte>): string {
    if |bytes| == 0 then ""
    else if |bytes| == 1 then EncodeQuad(bytes[0], 0, 0)[..2] + "=="
    else if |bytes| == 2 then EncodeQuad(bytes[0], bytes[1], 0)[..3] + "="
    else EncodeQuad(bytes[0], bytes[1], bytes[2]) + Encode(bytes[3..])
  }

  function EncodeQuad(x: Byte, y: Byte, z: Byte): (r: string)
    ensures |r| == 4
  {
    [DigitChar(x / 4), DigitChar(x % 4 * 16 + y / 16), DigitChar(y % 16 * 4 + z / 64), DigitChar(z % 64)]
  }

  function DecodeQuad(a: nat, b: nat, c: nat, d: nat): (r: seq<Byte>)
    requires a < 64 && b < 64 && c < 64 && d < 64
    ensures |r| == 3
  {
    [a * 4 + b / 16, b % 16 * 16 + c / 4, c % 4 * 64 + d]
  }

  /** Go's StdEncoding: padded quads, unused trailing bits ignored. Its skipping of
      line breaks cannot arise, since a field holds no white space. */
  function Decode(s: string): Option<seq<Byte>> {
    if s == "" then Some([])
    else if |s| < 4 then None
    else
      var (a, b, c, d) := (Digit(s[0]), Digit(s[1]), Digit(s[2]), Digit(s[3]));
      if a.None? || b.None? then None
      else if c.Some? && d.Some? then
        (match Decode(s[4..]) case None => None case Some(rest) => Some(DecodeQuad(a.value, b.value, c.value, d.value) + rest))
      else if |s| > 4 || s[3] != '=' then None
      else if c.Some? then Some(DecodeQuad(a.value, b.value, c.value, 0)[..2])
      else if s[2] == '=' then Some(DecodeQuad(a.value, b.value, 0, 0)[..1])
      else None
  }

  lemma DigitOfChar(v: nat)
    requires v < 64
    ensures Digit(DigitChar(v)) == Some(v)
  {}

  lemma QuadRoundTrip(x: Byte, y: Byte, z: Byte)
    ensures DecodeQuad(x / 4, x % 4 * 16 + y / 16, y % 16 * 4 + z / 64, z % 64) == [x, y, z]
  {}

  lemma DigitsRoundTrip(a: nat, b: nat, c: nat, d: nat)
    requires a < 64 && b < 64 && c < 64 && d < 64
    ensures var q := DecodeQuad(a, b, c, d);
      && q[0] / 4 == a && q[0] % 4 * 16 + q[1] / 16 == b && q[1] % 16 * 4 + q[2] / 64 == c && q[2] % 64 == d
  {}

  /** Reading one full quad. */
  lemma DecodeStep(a: nat, b: nat, c: nat, d: nat, rest: string)
    requires a < 64 && b < 64 && c < 64 && d < 64 && Decode(rest).Some?
    ensures Decode([DigitChar(a), DigitChar(b), DigitChar(c), DigitChar(d)] + rest) == Some(DecodeQuad(a, b, c, d) + Decode(rest).value)
  {
    var s := [DigitChar(a), DigitChar(b), DigitChar(c), DigitChar(d)] + rest;
    DigitOfChar(a);
    DigitOfChar(b);
    DigitOfChar(c);
    DigitOfChar(d);
    assert s[4..] == rest;
  }

  lemma QuadRead(x: Byte, y: Byte, z: Byte, rest: string)
    requires Decode(rest).Some?
    ensures Decode(EncodeQuad(x, y, z) + rest) == Some([x, y, z] + Decode(rest).value)
  {
    DecodeStep(x / 4, x % 4 * 16 + y / 16, y % 16 * 4 + z / 64, z % 64, rest);
    QuadRoundTrip(x, y, z);
  }

  /** The last, padded quad. */
  lemma DecodeOne(a: nat, b: nat)
    requires a < 64 && b < 64
    ensures Decode([DigitChar(a), DigitChar(b), '=', '=']) == Some(DecodeQuad(a, b, 0, 0)[..1])
  {
    DigitOfChar(a);
    DigitOfChar(b);
    assert Digit('=').None?;
  }

  lemma DecodeTwo(a: nat, b: nat, c: nat)
    requires a < 64 && b < 64 && c < 64
    ensures Decode([DigitChar(a), DigitChar(b), DigitChar(c), '=']) == Some(DecodeQuad(a, b, c, 0)[..2])
  {
    DigitOfChar(a);
    DigitOfChar(b);
    DigitOfChar(c);
    assert Digit('=').None?;
  }

  lemma DecodeOfOne(x: Byte)
    ensures Decode(Encode([x])) == Some([x])
  {
    DecodeOne(x / 4, x % 4 * 16);
    assert Encode([x]) == [DigitChar(x / 4), DigitChar(x % 4 * 16), '=', '='];
    assert DecodeQuad(x / 4, x % 4 * 16, 0, 0)[..1] == [x];
  }

  lemma DecodeOfTwo(x: Byte, y: Byte)
    ensures Decode(Encode([x, y])) == Some([x, y])
  {
    DecodeTwo(x / 4, x % 4 * 16 + y / 16, y % 16 * 4);
    assert Encode([x, y]) == [DigitChar(x / 4), DigitChar(x % 4 * 16 + y / 16), DigitChar(y % 16 * 4), '='];
    QuadRoundTrip(x, y, 0);
    assert [x, y, 0][..2] == [x, y];
  }

  lemma DecodeOfTriple(bytes: seq<Byte>, x: Byte, y: Byte, z: Byte, rest: seq<Byte>)
    requires bytes == [x, y, z] + rest && Decode(Encode(rest)) == Some(rest)
    ensures Decode(Encode(bytes)) == Some(bytes)
  {
    EncodeStep([x, y, z], rest);
    QuadRead(x, y, z, Encode(rest));
  }

  lemma DecodeOfShort(bytes: seq<Byte>)
    requires |bytes| < 3
    ensures Decode(Encode(bytes)) == Some(bytes)
  {
    if |bytes| == 1 {
      assert bytes == [bytes[0]];
      DecodeOfOne(bytes[0]);
    } else if |bytes| == 2 {
      assert bytes == [bytes[0], bytes[1]];
      DecodeOfTwo(bytes[0], bytes[1]);
    }
  }

  lemma FirstThree(bytes: seq<Byte>)
    requires |bytes| >= 3
    ensures bytes == [bytes[0], bytes[1], bytes[2]] + bytes[3..]
  {}

  /** Any bytes are read back from their encoding. */
  lemma {:induction false} DecodeOfEncode(bytes: seq<Byte>)
    ensures Decode(Encode(bytes)) == Some(bytes)
  {
    if |bytes| < 3 {
      DecodeOfShort(bytes);
    } else {
      FirstThree(bytes);
      DecodeOfEncode(bytes[3..]);
      DecodeOfTriple(bytes, bytes[0], bytes[1], bytes[2], bytes[3..]);
    }
  }

  /** A text of whole triples starts with a full quad. */
  lemma FullQuad(s: string)
    requires s != "" && Decode(s).Some? && |Decode(s).value| % 3 == 0
    ensures |s| >= 4 && Digit(s[0]).Some? && Digit(s[1]).Some? && Digit(s[2]).Some? && Digit(s[3]).Some? && Decode(s[4..]).Some?
    ensures Decode(s).value == DecodeQuad(Digit(s[0]).value, Digit(s[1]).value, Digit(s[2]).value, Digit(s[3]).value) + Decode(s[4..]).value
  {}

  lemma EncodeStep(q: seq<Byte>, rest: seq<Byte>)
    requires |q| == 3
    ensures Encode(q + rest) == EncodeQuad(q[0], q[1], q[2]) + Encode(rest)
  {
    assert (q + rest)[3..] == rest;
  }

  lemma QuadBack(s: string, a: nat, b: nat, c: nat, d: nat)
    requires |s| >= 4 && Digit(s[0]) == Some(a) && Digit(s[1]) == Some(b) && Digit(s[2]) == Some(c) && Digit(s[3]) == Some(d)
    ensures var q := DecodeQuad(a, b, c, d); EncodeQuad(q[0], q[1], q[2]) == s[..4]
  {
    DigitsRoundTrip(a, b, c, d);
    assert s[..4] == [s[0], s[1], s[2], s[3]];
  }

  lemma QuadStep(s: string)
    requires s != "" && Decode(s).Some? && |Decode(s).value| % 3 == 0
    ensures |s| >= 4 && Decode(s[4..]).Some? && |Decode(s[4..]).value| % 3 == 0
    ensures Encode(Decode(s).value) == s[..4] + Encode(Decode(s[4..]).value)
  {
    FullQuad(s);
    var a, b, c, d := Digit(s[0]).value, Digit(s[1]).value, Digit(s[2]).value, Digit(s[3]).value;
    EncodeStep(DecodeQuad(a, b, c, d), Decode(s[4..]).value);
    QuadBack(s, a, b, c, d);
    ThreeLess(|Decode(s).value|, |Decode(s[4..]).value|);
  }

  lemma ThreeLess(m: nat, n: nat)
    requires m == 3 + n && m % 3 == 0
    ensures n % 3 == 0
  {}

  /** A text that decodes to whole triples is the encoding of what it decodes to. */
  lemma {:induction false} EncodeOfDecode(s: string)
    requires Decode(s).Some? && |Decode(s).value| % 3 == 0
    ensures Encode(Decode(s).value) == s
  {
    if s == "" {
    } else {
      QuadStep(s);
      EncodeOfDecode(s[4..]);
      assert s == s[..4] + s[4..];
    }
  }

  lemma {:induction false} EncodedIsSolid(bytes: seq<Byte>)
    requires |bytes| % 3 == 0
    ensures |Encode(bytes)| == |bytes| / 3 * 4
    ensures forall i | 0 <= i < |Encode(bytes)| :: !IsSpace(Encode(bytes)[i])
  {
    if |bytes| == 0 {
    } else {
      EncodedIsSolid(bytes[3..]);
    }
  }

  // ----- Keys -----

  datatype KeyError = NotOneKey | HasNewline | BadEncoding | BadBlob

  datatype Normal = Normal(key: string) | Rejected(error: KeyError)

  /** A kind of key: its algorithm's name, and what is wrong with an encoded blob. */
  datatype Format = Format(name: string, flaw: string -> Option<KeyError>)

  /** validatePublicKey: None when the key is in order. */
  function Flaw(f: Format, s: string): Option<KeyError> {
    var fields := Fields(s);
    if |fields| < 2 || |fields| > 3 || fields[0] != f.name then Some(NotOneKey)
    else if '\r' in s || '\n' in s then Some(HasNewline)
    else f.flaw(fields[1])
  }

  function Normalize(f: Format, s: string): Normal {
    var t := TrimSpace(s);
    match Flaw(f, t)
    case Some(e) => Rejected(e)
    case None => Normal(TwoWords(Fields(t)[0], Fields(t)[1]))
  }

  function TwoWords(a: string, b: string): string {
    a + [' '] + b
  }

  lemma WordsDiffer(a: string, b: string, c: string)
    requires TwoWords(a, b) == TwoWords(a, c)
    ensures b == c
  {
    assert b == TwoWords(a, b)[|a| + 1..];
    assert c == TwoWords(a, c)[|a| + 1..];
  }

  lemma WordsAreTrimmed(a: string, b: string)
    requires Solid(a) && Solid(b)
    ensures TrimSpace(TwoWords(a, b)) == TwoWords(a, b) && '\r' !in TwoWords(a, b) && '\n' !in TwoWords(a, b)
  {
    var text := TwoWords(a, b);
    assert text[0] == a[0] && text[|text| - 1] == b[|b| - 1];
    TrimmedIsFixed(text);
    assert IsSpace('\r') && IsSpace('\n');
  }

  /** The trimmed text is one line of the name, this encoding and at most a comment. */
  predicate Carries(f: Format, s: string, encoded: string) {
    var t := TrimSpace(s);
    2 <= |Fields(t)| <= 3 && Fields(t)[0] == f.name && Fields(t)[1] == encoded && '\r' !in t && '\n' !in t
  }

  lemma NormalIff(f: Format, s: string, encoded: string)
    ensures Normalize(f, s) == Normal(TwoWords(f.name, encoded)) <==> Carries(f, s, encoded) && f.flaw(encoded).None?
  {
    var t := TrimSpace(s);
    if Normalize(f, s) == Normal(TwoWords(f.name, encoded)) {
      WordsDiffer(f.name, Fields(t)[1], encoded);
    }
  }

  lemma NormalIsFixed(f: Format, encoded: string)
    requires Solid(f.name) && Solid(encoded) && f.flaw(encoded).None?
    ensures Normalize(f, TwoWords(f.name, encoded)) == Normal(TwoWords(f.name, encoded))
    ensures Fields(TwoWords(f.name, encoded)) == [f.name, encoded]
  {
    TwoFields(f.name, encoded);
    WordsAreTrimmed(f.name, encoded);
  }

  // ----- Ed25519 -----

  const NAME := "ssh-ed25519"

  const NAME_BYTES: seq<Byte> := [115, 115, 104, 45, 101, 100, 50, 53, 53, 49, 57]

  function U32(b: seq<Byte>): nat
    requires |b| == 4
  {
    (b[0] as nat) * 0x100_0000 + (b[1] as nat) * 0x1_0000 + (b[2] as nat) * 0x100 + b[3]
  }

  predicate BlobFits(b: seq<Byte>) {
    |b| == 51 && U32(b[..4]) == 11 && b[4..15] == NAME_BYTES && U32(b[15..19]) == 32
  }

  function BlobFlaw(encoded: string): Option<KeyError> {
    match Decode(encoded)
    case None => Some(BadEncoding)
    case Some(b) => if |b| != 51 then Some(BadEncoding) else if !BlobFits(b) then Some(BadBlob) else None
  }

  const ED25519 := Format(NAME, BlobFlaw)

  function NormalizePublicKey(s: string): Normal {
    Normalize(ED25519, s)
  }

  /** The blob of an Ed25519 key: the algorithm's name and the key, each as a
      string in the sense of RFC 4251, section 5. */
  function Blob(key: seq<Byte>): (b: seq<Byte>)
    requires |key| == 32
    ensures |b| == 51
  {
    StringOf(NAME_BYTES) + StringOf(key)
  }

  function StringOf(bytes: seq<Byte>): (r: seq<Byte>)
    requires |bytes| < 256
    ensures |r| == 4 + |bytes|
  {
    [0, 0, 0, |bytes|] + bytes
  }

  lemma U32Small(b: seq<Byte>, n: Byte)
    requires |b| == 4
    ensures U32(b) == n <==> b == [0, 0, 0, n]
  {}

  /** The checked blobs are exactly those. */
  lemma BlobFitsIff(b: seq<Byte>)
    requires |b| == 51
    ensures BlobFits(b) <==> b == Blob(b[19..])
  {
    var key := b[19..];
    U32Small(b[..4], 11);
    U32Small(b[15..19], 32);
    var blob := Blob(key);
    assert blob[..4] == [0, 0, 0, 11] && blob[4..15] == NAME_BYTES && blob[15..19] == [0, 0, 0, 32];
    assert b == b[..4] + b[4..15] + b[15..19] + key;
    assert blob == blob[..4] + blob[4..15] + blob[15..19] + key;
  }

  lemma BlobOfKey(key: seq<Byte>)
    requires |key| == 32
    ensures BlobFits(Blob(key)) && Blob(key)[19..] == key
  {
    assert Blob(key)[19..] == key;
    BlobFitsIff(Blob(key));
  }

  /** The encodings in order are exactly those of such blobs, and then unique. */
  lemma BlobFlawIff(encoded: string)
    ensures BlobFlaw(encoded).None? <==> Decode(encoded).Some? && BlobFits(Decode(encoded).value)
    ensures BlobFlaw(encoded).None? ==> encoded == Encode(Decode(encoded).value)
  {
    if BlobFlaw(encoded).None? {
      EncodeOfDecode(encoded);
    }
  }

  lemma EncodedBlob(key: seq<Byte>)
    requires |key| == 32
    ensures BlobFlaw(Encode(Blob(key))).None? && Solid(Encode(Blob(key))) && |Encode(Blob(key))| == 68
    ensures Decode(Encode(Blob(key))) == Some(Blob(key))
  {
    DecodeOfEncode(Blob(key));
    BlobOfKey(key);
    EncodedIsSolid(Blob(key));
  }

  lemma NameIsSolid(name: string)
    requires name == NAME
    ensures Solid(name)
  {}

  /** What a text is accepted as: the key in its blob. */
  function KeyText(key: seq<Byte>): string
    requires |key| == 32
  {
    TwoWords(NAME, Encode(Blob(key)))
  }

  /** A text is accepted as this key exactly when, trimmed, it is one line of the
      algorithm name, the encoding of the key's blob and at most a comment. */
  lemma AcceptsIff(s: string, key: seq<Byte>)
    requires |key| == 32
    ensures NormalizePublicKey(s) == Normal(KeyText(key)) <==> Carries(ED25519, s, Encode(Blob(key)))
  {
    EncodedBlob(key);
    NormalIff(ED25519, s, Encode(Blob(key)));
  }

  /** The second field of a text. */
  function Encoded(s: string): string {
    var fields := Fields(TrimSpace(s));
    if |fields| < 2 then "" else fields[1]
  }

  /** Every accepted text is accepted as the key in its own blob. */
  lemma AcceptedHasKey(s: string)
    requires NormalizePublicKey(s).Normal?
    ensures Decode(Encoded(s)).Some? && |Decode(Encoded(s)).value| == 51
    ensures var key := Decode(Encoded(s)).value[19..];
      Decode(Encoded(s)).value == Blob(key) && NormalizePublicKey(s) == Normal(KeyText(key))
  {
    BlobFlawIff(Encoded(s));
    BlobFitsIff(Decode(Encoded(s)).value);
    NormalIff(ED25519, s, Encoded(s));
  }

  /** Every 32-byte key has an accepted text, its normal form, which stays as it is. */
  lemma NormalFormIsFixed(key: seq<Byte>)
    requires |key| == 32
    ensures NormalizePublicKey(KeyText(key)) == Normal(KeyText(key))
    ensures Fields(KeyText(key)) == [NAME, Encode(Blob(key))]
  {
    EncodedBlob(key);
    NameIsSolid(NAME);
    NormalIsFixed(ED25519, Encode(Blob(key)));
  }

  lemma AcceptedFields(s: string, key: seq<Byte>)
    requires |key| == 32 && NormalizePublicKey(s) == Normal(KeyText(key))
    ensures Fields(TrimSpace(s))[..2] == [NAME, Encode(Blob(key))]
  {
    AcceptsIff(s, key);
    FirstTwo(Fields(TrimSpace(s)));
  }

  lemma FirstTwo(fields: seq<string>)
    requires |fields| >= 2
    ensures fields[..2] == [fields[0], fields[1]]
  {}

  /** Normalising twice is normalising once, and only the comment is dropped. */
  lemma NormalizeIdempotent(s: string)
    ensures NormalizePublicKey(s).Normal? ==>
      && NormalizePublicKey(NormalizePublicKey(s).key) == NormalizePublicKey(s)
      && Fields(NormalizePublicKey(s).key) == Fields(TrimSpace(s))[..2]
  {
    if NormalizePublicKey(s).Normal? {
      AcceptedHasKey(s);
      var key := Decode(Encoded(s)).value[19..];
      NormalFormIsFixed(key);
      AcceptedFields(s, key);
    }
  }

  /** Accepted keys have the same normal form exactly when they have the same blob. */
  lemma SameTextIffSameBlob(a: string, b: string)
    ensures NormalizePublicKey(a).Normal? && NormalizePublicKey(b).Normal? ==>
      (NormalizePublicKey(a) == NormalizePublicKey(b) <==> Decode(Encoded(a)) == Decode(Encoded(b)))
  {
    if NormalizePublicKey(a).Normal? && NormalizePublicKey(b).Normal? {
      AcceptedHasKey(a);
      AcceptedHasKey(b);
      var x, y := Decode(Encoded(a)).value[19..], Decode(Encoded(b)).value[19..];
      EncodedBlob(x);
      EncodedBlob(y);
      if NormalizePublicKey(a) == NormalizePublicKey(b) {
        WordsDiffer(NAME, Encode(Blob(x)), Encode(Blob(y)));
      }
    }
  }

  // ----- Comparing host keys -----

  datatype HostKey = Trusted(key: string) | Omitted | BadKey(error: KeyError) | Differ

  /** The host key to trust, from the enrollment response and the command line;
      the empty string means none was given. */
  function ApplyHostKey(server: string, supplied: string): HostKey {
    if supplied == "" && server == "" then Omitted
    else match NormalizePublicKey(if supplied != "" then supplied else server)
      case Rejected(e) => BadKey(e)
      case Normal(key) =>
        if supplied == "" || server == "" then Trusted(key)
        else match NormalizePublicKey(server)
          case Rejected(e) => BadKey(e)
          case Normal(other) => if key != other then Differ else Trusted(key)
  }

  predicate Good(s: string) {
    s != "" && NormalizePublicKey(s).Normal?
  }

  /** A supplied key is trusted exactly when it is good and the server sent none, or
      a good one with the same blob, whatever the comments and spacing of the two. */
  lemma HostKeysAgree(server: string, supplied: string)
    requires supplied != ""
    ensures ApplyHostKey(server, supplied).Trusted? <==>
      Good(supplied) && (server == "" || (Good(server) && Decode(Encoded(server)) == Decode(Encoded(supplied))))
    ensures ApplyHostKey(server, supplied).Trusted? ==> Normal(ApplyHostKey(server, supplied).key) == NormalizePublicKey(supplied)
  {
    SameTextIffSameBlob(server, supplied);
  }

  /** A key that the server sends alone is trusted exactly when it is good; without
      any key there is none to trust. */
  lemma HostKeyAlone(server: string, none: string)
    requires none == ""
    ensures ApplyHostKey(server, none) == Omitted <==> server == ""
    ensures ApplyHostKey(server, none).Trusted? <==> Good(server)
    ensures ApplyHostKey(server, none).Trusted? ==> Normal(ApplyHostKey(server, none).key) == NormalizePublicKey(server)
  {}

  // ----- In plain text -----

  /** The alphabet of RFC 4648, section 4. */
  lemma Alphabet(v: nat, upper: string, lower: string, digits: string)
    requires v < 64 && upper == "ABCDEFGHIJKLMNOPQRSTUVWXYZ" && lower == "abcdefghijklmnopqrstuvwxyz" && digits == "0123456789"
    ensures DigitChar(v) == if v < 26 then upper[v] else if v < 52 then lower[v - 26] else if v < 62 then digits[v - 52]
                            else if v == 62 then '+' else '/'
  {}

  lemma QuadOf(bytes: seq<Byte>, text: string)
    requires |bytes| >= 3 && EncodeQuad(bytes[0], bytes[1], bytes[2]) == text
    ensures Encode(bytes) == text + Encode(bytes[3..])
  {}

  lemma NameQuads(x: Byte)
    ensures EncodeQuad(0, 0, 0) == "AAAA" && EncodeQuad(11, 115, 115) == "C3Nz" && EncodeQuad(104, 45, 101) == "aC1l"
    ensures EncodeQuad(100, 50, 53) == "ZDI1" && EncodeQuad(53, 49, 57) == "NTE5"
  {}

  lemma BlobBytes(key: seq<Byte>)
    requires |key| == 32
    ensures NameFirst(Blob(key))
  {
    var b := Blob(key);
    assert b[..4] == [0, 0, 0, 11] && b[4..15] == NAME_BYTES && b[15..19] == [0, 0, 0, 32];
    assert b[4] == NAME_BYTES[0] && b[5] == NAME_BYTES[1];
    assert b[6..9] == NAME_BYTES[2..5] && b[9..12] == NAME_BYTES[5..8] && b[12..15] == NAME_BYTES[8..11];
  }

  lemma QuadAt(b: seq<Byte>, n: nat, x: Byte, y: Byte, z: Byte, text: string)
    requires n + 3 <= |b| && b[n..n + 3] == [x, y, z] && EncodeQuad(x, y, z) == text
    ensures Encode(b[n..]) == text + Encode(b[n + 3..])
  {
    var rest := b[n..];
    assert rest[..3] == [x, y, z];
    assert rest[0] == x && rest[1] == y && rest[2] == z;
    assert rest[3..] == b[n + 3..];
    QuadOf(rest, text);
  }

  lemma LastQuad(b: seq<Byte>)
    requires |b| == 51 && b[18] == 32
    ensures Encode(b[18..]) != "" && Encode(b[18..])[0] == 'I'
  {
    assert b[18..][0] == 32;
  }

  /** The blob of some key, byte by byte as far as it is fixed. */
  predicate NameFirst(b: seq<Byte>) {
    && |b| == 51
    && b[0..3] == [0, 0, 0] && b[3..6] == [11, 115, 115] && b[6..9] == [104, 45, 101] && b[9..12] == [100, 50, 53]
    && b[12..15] == [53, 49, 57] && b[15..18] == [0, 0, 0] && b[18] == 32
  }

  lemma FirstHalf(b: seq<Byte>, x: string, y: string, z: string)
    requires NameFirst(b) && x == "AAAA" && y == "C3Nz" && z == "aC1l"
    ensures Encode(b) == x + (y + (z + Encode(b[9..])))
  {
    NameQuads(0);
    assert b[0..] == b;
    QuadAt(b, 0, 0, 0, 0, x);
    QuadAt(b, 3, 11, 115, 115, y);
    QuadAt(b, 6, 104, 45, 101, z);
  }

  lemma SecondHalf(b: seq<Byte>, x: string, y: string, z: string)
    requires NameFirst(b) && x == "ZDI1" && y == "NTE5" && z == "AAAA"
    ensures Encode(b[9..]) == x + (y + (z + Encode(b[18..])))
  {
    NameQuads(0);
    QuadAt(b, 9, 100, 50, 53, x);
    QuadAt(b, 12, 53, 49, 57, y);
    QuadAt(b, 15, 0, 0, 0, z);
  }

  lemma NamedStart(b: seq<Byte>, p: string, q: string)
    requires NameFirst(b) && p == "AAAAC3NzaC1l" && q == "ZDI1NTE5AAAA"
    ensures |Encode(b)| > 24 && Encode(b)[..24] == p + q && Encode(b)[24] == 'I'
  {
    var x, y, z, u, v, w := "AAAA", "C3Nz", "aC1l", "ZDI1", "NTE5", "AAAA";
    ThreeQuads(x, y, z, u, v, w, p, q);
    FirstHalf(b, x, y, z);
    SecondHalf(b, u, v, w);
    LastQuad(b);
    SixQuads(x, y, z, u, v, w, Encode(b[18..]));
  }

  lemma ThreeQuads(x: string, y: string, z: string, u: string, v: string, w: string, p: string, q: string)
    requires x == "AAAA" && y == "C3Nz" && z == "aC1l" && u == "ZDI1" && v == "NTE5" && w == "AAAA"
    requires p == "AAAAC3NzaC1l" && q == "ZDI1NTE5AAAA"
    ensures p == x + y + z && q == u + v + w
  {}

  /** Every Ed25519 key text carries a blob that starts as they all do. */
  lemma KeysStartAlike(key: seq<Byte>, p: string, q: string)
    requires |key| == 32 && p == "AAAAC3NzaC1l" && q == "ZDI1NTE5AAAA"
    ensures var text := Encode(Blob(key)); |text| == 68 && text[..24] == p + q && text[24] == 'I'
  {
    EncodedBlob(key);
    BlobBytes(key);
    NamedStart(Blob(key), p, q);
  }

  lemma SixQuads(a: string, b: string, c: string, d: string, e: string, f: string, rest: string)
    requires |a| == |b| == |c| == |d| == |e| == |f| == 4 && rest != ""
    ensures var text := a + (b + (c + (d + (e + (f + rest)))));
      text[..24] == (a + b + c) + (d + e + f) && text[24] == rest[0]
  {
    assert a + (b + (c + (d + (e + (f + rest))))) == ((a + b + c) + (d + e + f)) + rest;
  }

  /** A key written by hand, with an optional comment and any spacing on one line, is
      accepted as the key it encodes, in its normal form. */
  lemma WrittenKeyIsAccepted(lead: string, words: seq<string>, gaps: seq<string>, tail: string, key: seq<Byte>, name: string)
    requires |key| == 32 && name == "ssh-ed25519" && 2 <= |words| <= 3 && words[0] == name && words[1] == Encode(Blob(key))
    requires Blank(lead) && Blank(tail) && WellLaid(words, gaps) && gaps[|gaps| - 1] == ""
    requires forall i | 0 <= i < |gaps| :: '\r' !in gaps[i] && '\n' !in gaps[i]
    ensures NormalizePublicKey(lead + (Laid(words, gaps) + tail)) == Normal(name + [' '] + Encode(Blob(key)))
  {
    var core := Laid(words, gaps);
    LaidIsTrimmed(words, gaps);
    Trimming(lead, core, tail);
    BlankVanishes(tail);
    assert core + "" == core;
    FieldsOfLaid(words, gaps);
    LaidIsOneLine(words, gaps);
    AcceptsIff(lead + (core + tail), key);
  }

  lemma {:induction false} LaidIsOneLine(words: seq<string>, gaps: seq<string>)
    requires WellLaid(words, gaps) && forall i | 0 <= i < |gaps| :: '\r' !in gaps[i] && '\n' !in gaps[i]
    ensures '\r' !in Laid(words, gaps) && '\n' !in Laid(words, gaps)
    decreases |words|
  {
    if words == [] {
    } else {
      WellLaidTail(words, gaps);
      assert forall i | 0 <= i < |gaps| - 1 :: gaps[1..][i] == gaps[i + 1];
      LaidIsOneLine(words[1..], gaps[1..]);
      SolidIsOneLine(words[0]);
    }
  }

  lemma SolidIsOneLine(word: string)
    requires Solid(word)
    ensures '\r' !in word && '\n' !in word
  {
    assert IsSpace('\r') && IsSpace('\n');
  }

  lemma {:induction false} LaidIsTrimmed(words: seq<string>, gaps: seq<string>)
    requires WellLaid(words, gaps) && words != [] && gaps[|gaps| - 1] == ""
    ensures Trimmed(Laid(words, gaps))
    decreases |words|
  {
    var rest := Laid(words[1..], gaps[1..]);
    assert Laid(words, gaps)[0] == words[0][0];
    if |words| == 1 {
      assert rest == "" && Laid(words, gaps) == words[0];
    } else {
      WellLaidTail(words, gaps);
      assert gaps[1..][|gaps| - 2] == gaps[|gaps| - 1];
      LaidIsTrimmed(words[1..], gaps[1..]);
      var text := Laid(words, gaps);
      assert text[|text| - 1] == rest[|rest| - 1];
    }
  }
}
