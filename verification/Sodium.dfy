/**
 The foreign primitives as ideal terms. A term can be taken apart only by an operation that is
 given the right key, so the round-trip and rejection laws hold by construction: hashes do not
 collide, and nothing opens or verifies that was not made with the matching key.
 */
module Sodium {
  import opened Prelude

  const TAG_BYTES: nat := 16
  const NONCE_BYTES: nat := 24
  const KEY_BYTES: nat := 32
  const MAX_B64_LENGTH: nat := 4096

  /** Key material: raw bytes, or the BLAKE2b-256 of a tag byte followed by key material. */
  datatype Secret = Raw(bytes: Bytes) | Digest(tag: Byte, of: Secret) {
    function Size(): nat {
      match this
      case Raw(b) => |b|
      case Digest(_, _) => 32
    }
  }

  // ---- base64 text -----------------------------------------------------------------------

  predicate IsB64Char(c: char) {
    'A' <= c <= 'Z' || 'a' <= c <= 'z' || '0' <= c <= '9' || c == '+' || c == '/' || c == '='
  }

  /** The six-bit value of a character of the base64 alphabet. */
  function B64Value(c: char): nat
    requires IsB64Char(c) && c != '='
  {
    if 'A' <= c <= 'Z' then (c - 'A') as nat
    else if 'a' <= c <= 'z' then (c - 'a') as nat + 26
    else if '0' <= c <= '9' then (c - '0') as nat + 52
    else if c == '+' then 62 else 63
  }

  /** The texts that decode to exactly 32 bytes: 43 characters, the last with two zero bits, and one pad. */
  predicate IsKeyText(text: string) {
    && |text| == 44 && text[43] == '='
    && (forall i | 0 <= i < 43 :: IsB64Char(text[i]) && text[i] != '=')
    && B64Value(text[42]) % 4 == 0
  }

  /** Length of padded base64, section 4 of RFC 4648. */
  function B64Length(size: nat): nat {
    4 * ((size + 2) / 3)
  }

  /** A text field that holds the base64 of a term, or some other text. */
  datatype Field<T> = Encoded(value: T) | OtherText(text: string)

  /** The cap of 4096 characters is a cap of 3072 bytes. */
  lemma {:induction false} B64Cap(size: nat)
    ensures 0 < B64Length(size) <= MAX_B64_LENGTH <==> 0 < size <= 3072
  {
  }

  // ---- XChaCha20-Poly1305 ----------------------------------------------------------------

  datatype AeadText =
    | AeadSealed(key: Secret, nonce: Bytes, aad: string, plain: Bytes)
    | AeadForged(bytes: Bytes)
  {
    function Size(): nat {
      match this
      case AeadSealed(_, _, _, p) => |p| + TAG_BYTES
      case AeadForged(b) => |b|
    }
  }

  function AeadOpen(key: Secret, nonce: Bytes, aad: string, c: AeadText): Option<Bytes> {
    if c.AeadSealed? && c.key == key && c.nonce == nonce && c.aad == aad then Some(c.plain) else None
  }

  // ---- Ed25519 ---------------------------------------------------------------------------

  /** A signing key pair is identified by its public text; holding the value is holding the secret. */
  datatype SignSecret = SignSecret(public: string)

  datatype Signature<T> = Signed(signer: string, over: T) | ForgedSignature(bytes: Bytes) {
    function Size(): nat {
      match this
      case Signed(_, _) => 64
      case ForgedSignature(b) => |b|
    }
  }

  predicate Verify<T(==)>(public: string, text: T, sig: Signature<T>) {
    sig == Signed(public, text)
  }

  // ---- crypto_box ------------------------------------------------------------------------

  datatype BoxSecret = BoxSecret(public: string)

  datatype BoxText<T> = BoxSealed(nonce: Bytes, from: string, to: string, inner: T) | BoxForged(bytes: Bytes)

  /** The shared key of a box depends only on the unordered pair of key pairs. */
  function BoxOpen<T(==)>(nonce: Bytes, peer: string, own: BoxSecret, box: BoxText<T>): Option<T> {
    if box.BoxSealed? && box.nonce == nonce
       && ((box.from == peer && box.to == own.public) || (box.from == own.public && box.to == peer))
    then Some(box.inner) else None
  }
}
