/** Secrets in the state: encrypted values, and certificates framed inside them. */
module Secrets {
  import opened Options
  import opened Sites
  import DomainLists

  type byte = x: int | 0 <= x < 256
  type Bytes = seq<byte>

  const U32 := 0x1_0000_0000
  const NONCE_SIZE := 12
  const MAX_PART := 204800

  /** An authenticated cipher with its key: seal never fails, open fails on what was not sealed. */
  datatype Cipher = Cipher(seal: (Bytes, Bytes) -> Bytes, open: (Bytes, Bytes) -> Option<Bytes>)
  {
    /** What the cipher promises: opening with the same nonce gives the text back. */
    ghost predicate Sound() {
      forall nonce, text :: open(nonce, seal(nonce, text)) == Some(text)
    }
  }

  function Pow256(k: nat): nat {
    if k == 0 then 1 else 256 * Pow256(k - 1)
  }

  /** Little-endian encoding in k bytes. */
  function PutUint(n: nat, k: nat): (b: Bytes)
    ensures |b| == k
  {
    if k == 0 then [] else [n % 256] + PutUint(n / 256, k - 1)
  }

  function Uint(b: Bytes): (n: nat)
    ensures n < Pow256(|b|)
  {
    if b == [] then 0
    else
      var low: int := b[0];
      low + 256 * Uint(b[1..])
  }

  lemma {:induction false} UintPut(n: nat, k: nat)
    requires n < Pow256(k)
    ensures Uint(PutUint(n, k)) == n
  {
    if k > 0 {
      UintPut(n / 256, k - 1);
      assert PutUint(n, k)[1..] == PutUint(n / 256, k - 1);
    }
  }

  lemma {:induction false} PutUintOf(b: Bytes)
    ensures PutUint(Uint(b), |b|) == b
  {
    if b != [] {
      PutUintOf(b[1..]);
      assert Uint(b) % 256 == b[0] && Uint(b) / 256 == Uint(b[1..]);
      assert b == [b[0]] + b[1..];
    }
  }

  function PutUint32(n: nat): (b: Bytes)
    requires n < U32
    ensures |b| == 4 && Uint32(b) == n
  {
    UintPut(n, 4);
    PutUint(n, 4)
  }

  function Uint32(b: Bytes): (n: nat)
    requires |b| == 4
    ensures n < U32
  {
    Uint(b)
  }

  /** The frame of a certificate: the two lengths, the key, the certificate. */
  function Encode(key: Bytes, cert: Bytes): Bytes
    requires |key| < U32 && |cert| < U32
  {
    PutUint32(|key|) + PutUint32(|cert|) + key + cert
  }

  /** Panics stands for a slice expression out of range. */
  datatype Answer = Pair(key: Bytes, cert: Bytes) | Missing | Error | Panics

  /** The sum of the lengths is computed in 32 bits and wraps around. */
  function Decode(b: Bytes): Answer
    requires |b| >= 8
  {
    var keyLen, certLen := Uint32(b[..4]), Uint32(b[4..8]);
    if keyLen < 1 || certLen < 1 || |b| != (8 + keyLen + certLen) % U32 then Error
    else
      var start := (keyLen + 8) % U32;
      if start < 8 || start > |b| then Panics else Pair(b[8..start], b[start..])
  }

  /** Where the parts of a frame are. */
  lemma FrameParts(k: Bytes, c: Bytes, key: Bytes, cert: Bytes)
    requires |k| == |c| == 4
    ensures var b := k + c + key + cert;
            b[..4] == k && b[4..8] == c && b[8..8 + |key|] == key && b[8 + |key|..] == cert
  {
  }

  lemma PartsOfFrame(b: Bytes, n: nat)
    requires 8 + n <= |b|
    ensures b == b[..4] + b[4..8] + b[8..8 + n] + b[8 + n..]
  {
  }

  lemma DecodeEncode(key: Bytes, cert: Bytes)
    requires |key| >= 1 && |cert| >= 1 && 8 + |key| + |cert| < U32
    ensures Decode(Encode(key, cert)) == Pair(key, cert)
  {
    FrameParts(PutUint32(|key|), PutUint32(|cert|), key, cert);
  }

  /** When the key fits into the frame the sum of the lengths did not wrap around. */
  lemma NoWrap(keyLen: nat, certLen: nat, size: nat)
    requires keyLen < U32 && certLen < U32 && 8 <= size < U32
    requires size == (8 + keyLen + certLen) % U32 && 8 <= (keyLen + 8) % U32 <= size
    ensures size == 8 + keyLen + certLen && (keyLen + 8) % U32 == keyLen + 8
  {
  }

  lemma EncodeDecode(b: Bytes)
    requires 8 <= |b| < U32 && Decode(b).Pair?
    ensures var p := Decode(b);
            |p.key| >= 1 && |p.cert| >= 1 && |b| == 8 + |p.key| + |p.cert| && b == Encode(p.key, p.cert)
  {
    var p, keyLen, certLen := Decode(b), Uint32(b[..4]), Uint32(b[4..8]);
    NoWrap(keyLen, certLen, |b|);
    assert p.key == b[8..8 + keyLen] && p.cert == b[8 + keyLen..];
    PutUintOf(b[..4]);
    PutUintOf(b[4..8]);
    PartsOfFrame(b, keyLen);
  }

  /** The wrap-around never makes a wrong frame pass: the decoder returns a pair for its frame only. */
  lemma DecodeIffEncoded(b: Bytes, key: Bytes, cert: Bytes)
    requires 8 <= |b| < U32 && |key| < U32 && |cert| < U32
    ensures Decode(b) == Pair(key, cert) <==> b == Encode(key, cert) && |key| >= 1 && |cert| >= 1
  {
    if Decode(b) == Pair(key, cert) {
      EncodeDecode(b);
    } else if b == Encode(key, cert) && |key| >= 1 && |cert| >= 1 {
      DecodeEncode(key, cert);
    }
  }

  /** The decoder panics exactly on frames whose key length is longer than what follows, and whose lengths
  still add up because the sum wrapped around. */
  lemma DecodePanicsIff(b: Bytes)
    requires 8 <= |b| < U32
    ensures var keyLen, certLen := Uint32(b[..4]), Uint32(b[4..8]);
            Decode(b) == Panics <==>
            keyLen >= 1 && certLen >= 1 && 8 + keyLen + certLen == |b| + U32 && 8 + keyLen > |b|
  {
  }

  /** A frame of sixteen bytes does it: the lengths 2^32 - 1 and 9. */
  lemma DecodePanicsAt(rest: Bytes)
    requires |rest| == 8
    ensures Decode([255, 255, 255, 255] + [9, 0, 0, 0] + rest) == Panics
  {
    var b: Bytes := [255, 255, 255, 255] + [9, 0, 0, 0] + rest;
    var k: Bytes, c: Bytes := [255, 255, 255, 255], [9, 0, 0, 0];
    assert b[..4] == k && b[4..8] == c;
    assert k[1..] == [255, 255, 255] && k[1..][1..] == [255, 255] && k[1..][1..][1..] == [255];
    assert Uint(k[1..][1..]) == 255 + 256 * Uint(k[1..][1..][1..]);
    assert Uint(k) == U32 - 1;
    assert c[1..] == [0, 0, 0] && c[1..][1..] == [0, 0] && c[1..][1..][1..] == [0];
    assert Uint(c[1..][1..]) == 0;
    assert Uint(c) == 9;
  }

  /** What is stored for a secret: the nonce, and the sealed value. */
  function Sealed(cipher: Cipher, nonce: Bytes, value: Bytes): Bytes {
    nonce + cipher.seal(nonce, value)
  }

  datatype Opened = Value(value: Bytes) | Nothing | OpenError

  /** GetSecret on the stored bytes: too short a value counts as no value. */
  function Open(cipher: Cipher, stored: Option<Bytes>): Opened {
    if stored.None? || |stored.value| < NONCE_SIZE then Nothing
    else
      var text := cipher.open(stored.value[..NONCE_SIZE], stored.value[NONCE_SIZE..]);
      if text.None? then OpenError else Value(text.value)
  }

  /** GetCertificate on the stored bytes. */
  function CertificateOf(cipher: Cipher, stored: Option<Bytes>): Answer {
    match Open(cipher, stored)
    case OpenError => Error
    case Nothing => Missing
    case Value(b) => if |b| < 8 then Missing else Decode(b)
  }

  lemma OpenSealed(cipher: Cipher, nonce: Bytes, value: Bytes)
    requires cipher.Sound() && |nonce| == NONCE_SIZE
    ensures Open(cipher, Some(Sealed(cipher, nonce, value))) == Value(value)
  {
    var stored := Sealed(cipher, nonce, value);
    assert stored[..NONCE_SIZE] == nonce && stored[NONCE_SIZE..] == cipher.seal(nonce, value);
  }

  /** Round trip: a key and a certificate that can be stored come back exactly if neither is empty; an empty
  one is stored without complaint and reported as an error when it is read. */
  lemma CertificateRoundTrip(cipher: Cipher, nonce: Bytes, key: Bytes, cert: Bytes)
    requires cipher.Sound() && |nonce| == NONCE_SIZE
    requires |key| <= MAX_PART && |cert| <= MAX_PART
    ensures CertificateOf(cipher, Some(Sealed(cipher, nonce, Encode(key, cert)))) ==
            if |key| >= 1 && |cert| >= 1 then Pair(key, cert) else Error
  {
    OpenSealed(cipher, nonce, Encode(key, cert));
    var b := Encode(key, cert);
    if |key| >= 1 && |cert| >= 1 {
      DecodeEncode(key, cert);
    }
    assert b[..4] == PutUint32(|key|) && b[4..8] == PutUint32(|cert|);
  }

  const IMPORTED_PREFIX := "cert/imported/"

  /** The key of a certificate's secret; "" is an invalid request. `digest` is the first 15 hexadecimal digits
  of SHA-256. */
  function SecretKey(kind: TlsType, names: seq<string>, digest: string -> string): string {
    match kind
    case Imported => if |names| != 1 || |names[0]| == 0 then "" else IMPORTED_PREFIX + names[0]
    case Acme => "cert/acme/" + digest(DomainLists.Join(names))
    case SelfSigned => "cert/selfsigned/" + digest(DomainLists.Join(names))
    case AzureKeyVault => ""
  }

  /** Which requests are valid: for a certificate that is issued here, or for an imported one by one name. */
  lemma SecretKeyValidIff(kind: TlsType, names: seq<string>, digest: string -> string)
    ensures SecretKey(kind, names, digest) != "" <==>
            kind.Acme? || kind.SelfSigned? || (kind.Imported? && |names| == 1 && names[0] != "")
  {
  }

  /** Keys of different types never clash, and keys of one type clash only for the same name, or for domain
  lists with the same digest. */
  lemma SecretKeysDiffer(k1: TlsType, n1: seq<string>, k2: TlsType, n2: seq<string>, digest: string -> string)
    requires SecretKey(k1, n1, digest) != ""
    ensures SecretKey(k1, n1, digest) == SecretKey(k2, n2, digest) <==>
            && k1 == k2 && SecretKey(k2, n2, digest) != ""
            && if k1.Imported? then n1 == n2 else digest(DomainLists.Join(n1)) == digest(DomainLists.Join(n2))
  {
    var s1, s2 := SecretKey(k1, n1, digest), SecretKey(k2, n2, digest);
    if s2 != "" {
      assert s1[5] == (if k1.Imported? then 'i' else if k1.Acme? then 'a' else 's');
      assert s2[5] == (if k2.Imported? then 'i' else if k2.Acme? then 'a' else 's');
      var prefix := if k1.Imported? then 14 else if k1.Acme? then 10 else 16;
      if k1 == k2 {
        assert s1[prefix..] == if k1.Imported? then n1[0] else digest(DomainLists.Join(n1));
        assert s2[prefix..] == if k1.Imported? then n2[0] else digest(DomainLists.Join(n2));
      }
    }
  }
}
