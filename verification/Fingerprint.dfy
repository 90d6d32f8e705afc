/** The signed fingerprint payload: 32 bytes fingerprint, 32 bytes key, 8 bytes time, 16 bytes nonce.

    Signatures are symbolic: one verifies under a key and for a payload exactly when it was made
    for both. */
module Fingerprint {
  import opened Prelude
  import opened Shifts
  import opened Base32

  datatype PayloadError = BadFingerprint | BadPeerId | BadNonce

  /** `Forged`: 64 bytes that no signer made; `Malformed`: not 64 bytes, which the library refuses. */
  datatype Signature = Signed(publicKey: seq<byte>, payload: seq<byte>) | Forged(n: nat) | Malformed

  datatype VerifyError = NoPayload(error: PayloadError) | Refused

  const TWO_64: int := 0x1_0000_0000_0000_0000

  /** Eight bytes, most significant first; `setBigUint64` keeps the value modulo 2^64. */
  function BigEndian(timestamp: int): (bytes: seq<byte>)
    ensures |bytes| == 8
  {
    Bytes(Numeral(timestamp % TWO_64, 8, 8))
  }

  function Payload(fingerprint: seq<byte>, peerId: seq<byte>, timestamp: int, nonce: seq<byte>)
    : (r: Result<seq<byte>, PayloadError>)
    ensures r.Ok? ==> |r.value| == 88
  {
    if |fingerprint| != 32 then Err(BadFingerprint)
    else if |peerId| != 32 then Err(BadPeerId)
    else if |nonce| != 16 then Err(BadNonce)
    else Ok(fingerprint + peerId + BigEndian(timestamp) + nonce)
  }

  /** `payload.set(src, at)`. */
  method SetAt(payload: array<byte>, src: seq<byte>, at: nat)
    requires at + |src| <= payload.Length
    modifies payload
    ensures payload[..] == old(payload[..at]) + src + old(payload[at + |src|..])
  {
    for i := 0 to |src|
      invariant payload[..at] == old(payload[..at])
      invariant payload[at..at + i] == src[..i]
      invariant payload[at + i..] == old(payload[at + i..])
    {
      payload[at + i] := src[i];
    }
    assert payload[..] == payload[..at] + payload[at..at + |src|] + payload[at + |src|..];
  }

  /** `view.setBigUint64(0, value, false)`: the low byte goes last. */
  method SetBigUint64(bytes: array<byte>, timestamp: int)
    requires bytes.Length == 8
    modifies bytes
    ensures bytes[..] == BigEndian(timestamp)
  {
    ByteWidth();
    var value: nat := timestamp % TWO_64;
    ghost var total: nat := value;
    var i := 8;
    while i > 0
      invariant 0 <= i <= 8 && DigitsOfWidth(Ints(bytes[i..]), 8)
      invariant Numeral(total, 8, 8) == Numeral(value, 8, i) + Ints(bytes[i..])
    {
      NumeralSnoc(value, i);
      ghost var tail := Ints(bytes[i..]);
      i := i - 1;
      bytes[i] := (value % 256) as byte;
      assert Ints(bytes[i..]) == [value % 256] + tail;
      value := value / 256;
    }
    assert bytes[0..] == bytes[..];
    assert Numeral(value, 8, 0) == [];
  }

  lemma ByteWidth()
    ensures Pow2(8) == 256
  {
  }

  lemma NumeralSnoc(v: nat, i: nat)
    requires i > 0
    ensures Numeral(v, 8, i) == Numeral(v / 256, 8, i - 1) + [v % 256]
  {
    ByteDiv(v);
  }

  lemma ByteDiv(v: nat)
    ensures Div2(v, 8) == v / 256 && Mod2(v, 8) == v % 256
  {
    Split(v, 8);
    ByteMul(Div2(v, 8));
    ByteWidth();
  }

  lemma ByteMul(v: nat)
    ensures Mul2(v, 8) == 256 * v
  {
    assert Mul2(v, 1) == 2 * v;
    assert Mul2(v, 3) == 4 * Mul2(v, 1);
    assert Mul2(v, 5) == 4 * Mul2(v, 3);
    assert Mul2(v, 7) == 4 * Mul2(v, 5);
  }

  method BuildFingerprintPayload(fingerprint: seq<byte>, peerId: seq<byte>, timestamp: int, nonce: seq<byte>)
    returns (r: Result<seq<byte>, PayloadError>)
    ensures r == Payload(fingerprint, peerId, timestamp, nonce)
  {
    if |fingerprint| != 32 {
      return Err(BadFingerprint);
    }
    if |peerId| != 32 {
      return Err(BadPeerId);
    }
    if |nonce| != 16 {
      return Err(BadNonce);
    }
    var tsBytes := new byte[8];
    SetBigUint64(tsBytes, timestamp);
    var payload := new byte[88];
    SetAt(payload, fingerprint, 0);
    SetAt(payload, peerId, 32);
    SetAt(payload, tsBytes[..], 64);
    SetAt(payload, nonce, 72);
    assert payload[..] == fingerprint + peerId + BigEndian(timestamp) + nonce;
    r := Ok(payload[..]);
  }

  // ── The layout is unambiguous ────────────────────────────────────────────

  lemma BigEndianInjective(a: int, b: int)
    ensures BigEndian(a) == BigEndian(b) <==> a % TWO_64 == b % TWO_64
  {
    if BigEndian(a) == BigEndian(b) {
      BigEndianValue(a);
      BigEndianValue(b);
    }
  }

  lemma BigEndianValue(a: int)
    ensures Value(Ints(BigEndian(a)), 8) == a % TWO_64
  {
    WidthOf64();
    ValueOfNumeral(a % TWO_64, 8, 8);
    assert Ints(BigEndian(a)) == Numeral(a % TWO_64, 8, 8);
  }

  lemma WidthOf64()
    ensures Pow2(BitCount(8, 8)) == TWO_64
  {
    BitCountOf(8);
    hide Mul2;
    ByteMul(1);
    Mul2Mul2(1, 8, 8);
    ByteMul(0x100);
    Mul2Mul2(1, 16, 8);
    ByteMul(0x10000);
    Mul2Mul2(1, 24, 8);
    ByteMul(0x1000000);
    Mul2Mul2(1, 32, 8);
    ByteMul(0x100000000);
    Mul2Mul2(1, 40, 8);
    ByteMul(0x10000000000);
    Mul2Mul2(1, 48, 8);
    ByteMul(0x1000000000000);
    Mul2Mul2(1, 56, 8);
    ByteMul(0x100000000000000);
  }

  /** Two signed payloads agree only when all four fields do, the time modulo 2^64: no byte of one
      field can pass for another's. */
  lemma PayloadInjective(f: seq<byte>, p: seq<byte>, t: int, n: seq<byte>, f': seq<byte>, p': seq<byte>, t': int, n': seq<byte>)
    requires Payload(f, p, t, n).Ok? && Payload(f', p', t', n').Ok?
    ensures Payload(f, p, t, n) == Payload(f', p', t', n') <==> f == f' && p == p' && t % TWO_64 == t' % TWO_64 && n == n'
  {
    BigEndianInjective(t, t');
    hide BigEndian;
    FourParts(f, p, BigEndian(t), n);
    FourParts(f', p', BigEndian(t'), n');
  }

  lemma FourParts(a: seq<byte>, b: seq<byte>, c: seq<byte>, d: seq<byte>)
    requires |a| == 32 && |b| == 32 && |c| == 8
    ensures var s := a + b + c + d; s[..32] == a && s[32..64] == b && s[64..72] == c && s[72..] == d
  {
  }

  /** A payload exists for fields of the right lengths, and the first wrong one is reported. */
  lemma PayloadErrors(fingerprint: seq<byte>, peerId: seq<byte>, timestamp: int, nonce: seq<byte>)
    ensures var r := Payload(fingerprint, peerId, timestamp, nonce);
      && (r.Ok? <==> |fingerprint| == 32 && |peerId| == 32 && |nonce| == 16)
      && (r == Err(BadFingerprint) <==> |fingerprint| != 32)
      && (r == Err(BadPeerId) <==> |fingerprint| == 32 && |peerId| != 32)
  {
  }

  // ── Signing and verifying ────────────────────────────────────────────────

  /** The secret key is known by the public key that belongs to it. */
  function SignFingerprint(fingerprint: seq<byte>, peerId: seq<byte>, timestamp: int, nonce: seq<byte>, publicKey: seq<byte>)
    : Result<Signature, PayloadError>
  {
    match Payload(fingerprint, peerId, timestamp, nonce)
    case Err(e) => Err(e)
    case Ok(payload) => Ok(Signed(publicKey, payload))
  }

  /** `Err` is a rejected promise. */
  function VerifyFingerprint(fingerprint: seq<byte>, peerId: seq<byte>, timestamp: int, nonce: seq<byte>,
                             signature: Signature, publicKey: seq<byte>): Result<bool, VerifyError>
  {
    match Payload(fingerprint, peerId, timestamp, nonce)
    case Err(e) => Err(NoPayload(e))
    case Ok(payload) =>
      if signature.Malformed? || |publicKey| != 32 then Err(Refused)
      else Ok(signature == Signed(publicKey, payload))
  }

  function Abs(x: int): nat {
    if x < 0 then -x else x
  }

  predicate IsTimestampValid(timestamp: int, windowSeconds: nat, now: int) {
    Abs(now - timestamp) <= windowSeconds
  }

  /** A signature verifies for exactly the fields it was made for. */
  lemma VerifiesIff(f: seq<byte>, p: seq<byte>, t: int, n: seq<byte>, key: seq<byte>,
                    f': seq<byte>, p': seq<byte>, t': int, n': seq<byte>, key': seq<byte>)
    requires SignFingerprint(f, p, t, n, key).Ok? && |key'| == 32
    ensures VerifyFingerprint(f', p', t', n', SignFingerprint(f, p, t, n, key).value, key') == Ok(true)
       <==> f' == f && p' == p && t' % TWO_64 == t % TWO_64 && n' == n && key' == key
  {
    if Payload(f', p', t', n').Ok? {
      PayloadInjective(f, p, t, n, f', p', t', n');
    }
    // Hidden in the goal only, here and below: the steps before need the definitions.
    hide Payload;
  }
}
