/** Sealing and opening room messages, and the pairwise envelopes that hand a chain key over. */
module RoomCrypto {
  import opened Prelude
  import opened Sodium
  import opened SigningInputs
  import opened Ratchet

  type Nonce = b: Bytes | |b| == NONCE_BYTES witness seq(NONCE_BYTES, _ => 0)

  /** What a box holds: `SenderKeyEnvelope`, printed as JSON. */
  datatype SenderKeyEnvelope = SenderKeyEnvelope(
    room: string, epoch: Uint64, keyId: string, chainKey: Secret, senderX: string, senderEd: string)
  {
    /** Length of the JSON text for a room name that needs no escaping and keys of 32 bytes. */
    function Size(): nat {
      68 + 3 * 44 + |keyId| + |room| + |Decimal(epoch)|
    }
  }

  /**
   The signed texts. Keeping them structured is sound because the joined strings determine their
   fields and the two kinds never coincide (`SigningInputs`).
   */
  datatype SignInput =
    | ForMessage(aad: string, nonce: Field<Bytes>, ciphertext: Field<AeadText>)
    | ForEnvelope(room: string, sender: string, recipient: string, epoch: Uint64, keyId: string,
                  nonce: Field<Bytes>, box: Field<BoxText<SenderKeyEnvelope>>)

  type SignatureField = Field<Signature<SignInput>>

  datatype SealedMessage = SealedMessage(epoch: Uint64, keyId: string, index: Uint32, nonce: Field<Bytes>,
                                         ciphertext: Field<AeadText>, signature: SignatureField)

  function DecodeSignature(f: SignatureField): Option<Signature<SignInput>> {
    match f
    case Encoded(sig) => if sig.Size() == 64 then Some(sig) else None
    case OtherText(_) => None
  }

  function DecodeNonce(f: Field<Bytes>): Option<Bytes> {
    match f
    case Encoded(b) => if |b| == NONCE_BYTES then Some(b) else None
    case OtherText(_) => None
  }

  /** Ciphertext that survives the 4096-character cap and is long enough to hold a tag. */
  function DecodeCiphertext(f: Field<AeadText>): Option<AeadText> {
    match f
    case Encoded(c) => if B64Length(c.Size()) <= MAX_B64_LENGTH && TAG_BYTES <= c.Size() then Some(c) else None
    case OtherText(_) => None
  }

  function DecodeBox(f: Field<BoxText<SenderKeyEnvelope>>): Option<BoxText<SenderKeyEnvelope>> {
    match f
    case Encoded(b) =>
      var size := if b.BoxSealed? then b.inner.Size() + TAG_BYTES else |b.bytes|;
      if B64Length(size) <= MAX_B64_LENGTH && TAG_BYTES <= size then Some(b) else None
    case OtherText(_) => None
  }

  // ---- sealing ---------------------------------------------------------------------------

  function Seal(out: Outbound, epoch: Uint64, room: string, sender: string, plaintext: Bytes,
                signer: SignSecret, nonce: Nonce): (Outbound, Option<SealedMessage>)
  {
    var step := DeriveRatchetStep(out.chain);
    if step.messageKey.Size() != 32 || step.nextChain.Size() != 32 then (out, None)
    else
      var aad := MessageAad(room, sender, epoch, out.keyId, out.index);
      var n: Field<Bytes> := Encoded(nonce);
      var c := Encoded(AeadSealed(step.messageKey, nonce, aad, plaintext));
      var sealed := SealedMessage(epoch, out.keyId, out.index, n, c,
                                  Encoded(Signed(signer.public, ForMessage(aad, n, c))));
      (Advance(out, step.nextChain), Some(sealed))
  }

  // ---- opening ---------------------------------------------------------------------------

  function InputOf(m: SealedMessage, room: string, sender: string): SignInput {
    ForMessage(MessageAad(room, sender, m.epoch, m.keyId, m.index), m.nonce, m.ciphertext)
  }

  predicate Authenticated(m: SealedMessage, room: string, sender: string, public: string) {
    var sig := DecodeSignature(m.signature);
    sig.Some? && Verify(public, InputOf(m, room, sender), sig.value)
  }

  function Open(k: Inbound, m: SealedMessage, room: string, sender: string, public: string)
    : (Inbound, Option<Bytes>)
  {
    if !IsKeyText(public) || !Authenticated(m, room, sender, public) then (k, None)
    else
      var nonce, c := DecodeNonce(m.nonce), DecodeCiphertext(m.ciphertext);
      if nonce.None? || c.None? then (k, None)
      else
        var (k', key) := Take(k, m.index);
        if key.None? then (k', None)
        else
          var aad := MessageAad(room, sender, m.epoch, m.keyId, m.index);
          match AeadOpen(key.value, nonce.value, aad, c.value)
          case None => (k, None)
          case Some(p) => (k', Some(p))
  }

  /** Every refused message, at whatever stage, leaves chain, position and cache as they were. */
  lemma {:induction false} RefusalKeepsChain(k: Inbound, m: SealedMessage, room: string, sender: string,
                                             public: string)
    requires Open(k, m, room, sender, public).1.None?
    ensures Open(k, m, room, sender, public).0 == k
  {
    hide CachedAfter;
  }

  /**
   A message opens to a text exactly when the public key is a key, the signature is that key's over
   this header, nonce and ciphertext, the nonce has 24 bytes, the ciphertext has 16 to 3072 bytes, the
   one-time key is available, and the ciphertext is the sealing of the text under that key and nonce.
   */
  lemma {:induction false} OpenExactly(k: Inbound, m: SealedMessage, room: string, sender: string, public: string,
                                       text: Bytes)
    ensures Open(k, m, room, sender, public).1 == Some(text) <==>
      && IsKeyText(public)
      && m.signature == Encoded(Signed(public, ForMessage(MessageAad(room, sender, m.epoch, m.keyId, m.index), m.nonce,
                                                          m.ciphertext)))
      && m.nonce.Encoded? && |m.nonce.value| == 24
      && m.ciphertext.Encoded? && 16 <= m.ciphertext.value.Size() <= 3072
      && Take(k, m.index).1.Some?
      && m.ciphertext.value == AeadSealed(Take(k, m.index).1.value, m.nonce.value,
                                          MessageAad(room, sender, m.epoch, m.keyId, m.index), text)
  {
    hide Take, MessageAad;
    if m.ciphertext.Encoded? {
      B64Cap(m.ciphertext.value.Size());
    }
  }

  class OutboundSenderKey {
    var chain: Secret
    var index: Uint32
    var keyId: string

    function State(): Outbound
      reads this
    {
      Outbound(chain, index, keyId)
    }

    constructor (out: Outbound)
      ensures State() == out
    {
      chain := out.chain;
      index := out.index;
      keyId := out.keyId;
    }

    method AdvanceTo(nextChain: Secret)
      modifies this
      ensures State() == Advance(old(State()), nextChain)
    {
      if nextChain.Size() != KEY_BYTES {
        return;
      }
      chain := nextChain;
      index := (index + 1) % TWO_32;
    }
  }

  /** `seal_room_message`: the chain moves on exactly when a message is produced. */
  method SealRoomMessage(out: OutboundSenderKey, epoch: Uint64, room: string, sender: string, plaintext: Bytes,
                         signer: SignSecret, nonce: Nonce) returns (sealed: Option<SealedMessage>)
    modifies out
    ensures (out.State(), sealed) == Seal(old(out.State()), epoch, room, sender, plaintext, signer, nonce)
  {
    var step := DeriveRatchetStep(out.chain);
    if step.messageKey.Size() != 32 || step.nextChain.Size() != 32 {
      return None;
    }
    var aad := MessageAad(room, sender, epoch, out.keyId, out.index);
    var n: Field<Bytes> := Encoded(nonce);
    var c := Encoded(AeadSealed(step.messageKey, nonce, aad, plaintext));
    sealed := Some(SealedMessage(epoch, out.keyId, out.index, n, c,
                                 Encoded(Signed(signer.public, ForMessage(aad, n, c)))));
    out.AdvanceTo(step.nextChain);
  }

  /** `open_room_message`: snapshot, take the one-time key, roll back when the AEAD refuses. */
  method OpenRoomMessage(chain: InboundSenderKey, m: SealedMessage, room: string, sender: string, public: string)
    returns (plaintext: Option<Bytes>)
    modifies chain
    ensures old(chain.Valid()) ==> chain.Valid()
    ensures (chain.State(), plaintext) == Open(old(chain.State()), m, room, sender, public)
    ensures plaintext.None? ==> chain.State() == old(chain.State())
  {
    hide KeepLargestKeys, CachedAfter;
    if !IsKeyText(public) || !Authenticated(m, room, sender, public) {
      return None;
    }
    var nonce, c := DecodeNonce(m.nonce), DecodeCiphertext(m.ciphertext);
    if nonce.None? || c.None? {
      return None;
    }
    var before := chain.State();
    var key := chain.TakeMessageKey(m.index);
    if key.None? {
      return None;
    }
    var aad := MessageAad(room, sender, m.epoch, m.keyId, m.index);
    plaintext := AeadOpen(key.value, nonce.value, aad, c.value);
    if plaintext.None? {
      chain.Restore(before);
    }
  }

  // ---- envelopes -------------------------------------------------------------------------

  datatype WrappedEnvelope = WrappedEnvelope(
    nonce: Field<Bytes>, box: Field<BoxText<SenderKeyEnvelope>>, signature: SignatureField,
    senderX: string, senderEd: string)

  function Wrap(room: string, sender: string, recipient: string, epoch: Uint64, keyId: string, chainKey: Secret,
                boxSecret: BoxSecret, signer: SignSecret, recipientX: string, nonce: Nonce): Option<WrappedEnvelope>
  {
    if chainKey.Size() != KEY_BYTES || !IsValidKeyId(keyId) || !IsKeyText(recipientX) then None
    else
      var inner := SenderKeyEnvelope(room, epoch, keyId, chainKey, boxSecret.public, signer.public);
      var n: Field<Bytes> := Encoded(nonce);
      var box := Encoded(BoxSealed(nonce, boxSecret.public, recipientX, inner));
      var sig := Signed(signer.public, ForEnvelope(room, sender, recipient, epoch, keyId, n, box));
      Some(WrappedEnvelope(n, box, Encoded(sig), boxSecret.public, signer.public))
  }

  function Unwrap(room: string, sender: string, recipient: string, epoch: Uint64, keyId: string,
                  w: WrappedEnvelope, own: BoxSecret, senderX: string, senderEd: string): Option<SenderKeyEnvelope>
  {
    if !IsKeyText(senderX) || !IsKeyText(senderEd) || !IsValidKeyId(keyId) then None
    else
      var sig := DecodeSignature(w.signature);
      if sig.None? || !Verify(senderEd, ForEnvelope(room, sender, recipient, epoch, keyId, w.nonce, w.box), sig.value)
      then None
      else
        var nonce, box := DecodeNonce(w.nonce), DecodeBox(w.box);
        if nonce.None? || box.None? then None
        else
          match BoxOpen(nonce.value, senderX, own, box.value)
          case None => None
          case Some(e) =>
            if e.room != room || e.epoch != epoch || e.keyId != keyId || e.chainKey.Size() != KEY_BYTES then None
            else if e.senderX != w.senderX || e.senderEd != w.senderEd then None
            else Some(e)
  }

  /**
   An envelope opens for the recipient it was wrapped for, and yields the wrapped chain key,
   exactly when its box fits the base64 cap.
   */
  lemma {:induction false} EnvelopeRoundTrip(room: string, sender: string, recipient: string, epoch: Uint64,
                           keyId: string, chainKey: Secret, boxSecret: BoxSecret, signer: SignSecret,
                           own: BoxSecret, nonce: Nonce)
    requires IsKeyText(boxSecret.public) && IsKeyText(signer.public) && IsKeyText(own.public)
    requires chainKey.Size() == KEY_BYTES && IsValidKeyId(keyId)
    ensures
      var w := Wrap(room, sender, recipient, epoch, keyId, chainKey, boxSecret, signer, own.public, nonce);
      && w.Some?
      && Unwrap(room, sender, recipient, epoch, keyId, w.value, own, boxSecret.public, signer.public)
         == if |room| + |Decimal(epoch)| <= 2848
            then Some(SenderKeyEnvelope(room, epoch, keyId, chainKey, boxSecret.public, signer.public))
            else None
  {
    var inner := SenderKeyEnvelope(room, epoch, keyId, chainKey, boxSecret.public, signer.public);
    assert inner.Size() == 208 + |room| + |Decimal(epoch)|;
    B64Cap(inner.Size() + TAG_BYTES);
  }

  /** What unwraps was signed for exactly this header, and boxed between exactly these two key pairs. */
  lemma {:induction false} UnwrapAuthentic(room: string, sender: string, recipient: string, epoch: Uint64,
                         keyId: string, w: WrappedEnvelope, own: BoxSecret, senderX: string, senderEd: string)
    requires Unwrap(room, sender, recipient, epoch, keyId, w, own, senderX, senderEd).Some?
    ensures w.signature
         == Encoded(Signed(senderEd, ForEnvelope(room, sender, recipient, epoch, keyId, w.nonce, w.box)))
    ensures w.box.Encoded? && w.box.value.BoxSealed?
         && {w.box.value.from, w.box.value.to} == {senderX, own.public}
    ensures w.box.value.inner.senderX == w.senderX && w.box.value.inner.senderEd == w.senderEd
  {
  }

  /**
   An envelope unwraps exactly when all keys and the key id are well formed, the named signer signed
   exactly this header, the nonce has 24 bytes, the box fits the cap and was made between the two key
   pairs with this nonce, and its contents name the same room, epoch, key id and sender keys.
   */
  lemma {:induction false} UnwrapExactly(room: string, sender: string, recipient: string, epoch: Uint64, keyId: string,
                                         w: WrappedEnvelope, own: BoxSecret, senderX: string, senderEd: string,
                                         e: SenderKeyEnvelope)
    ensures Unwrap(room, sender, recipient, epoch, keyId, w, own, senderX, senderEd) == Some(e) <==>
      && IsKeyText(senderX) && IsKeyText(senderEd) && IsValidKeyId(keyId)
      && w.signature == Encoded(Signed(senderEd, ForEnvelope(room, sender, recipient, epoch, keyId, w.nonce, w.box)))
      && w.nonce.Encoded? && |w.nonce.value| == 24
      && w.box.Encoded? && w.box.value.BoxSealed? && w.box.value.nonce == w.nonce.value && e == w.box.value.inner
      && {w.box.value.from, w.box.value.to} == {senderX, own.public}
      && e.Size() + 16 <= 3072 && e.chainKey.Size() == 32
      && e.room == room && e.epoch == epoch && e.keyId == keyId && e.senderX == w.senderX && e.senderEd == w.senderEd
  {
    hide IsKeyText, IsValidKeyId;
    B64Cap(e.Size() + TAG_BYTES);
    if w.box.Encoded? && w.box.value.BoxSealed? {
      SamePair(w.box.value.from, w.box.value.to, senderX, own.public);
    }
  }

  lemma {:induction false} SamePair(a: string, b: string, x: string, y: string)
    ensures {a, b} == {x, y} <==> (a == x && b == y) || (a == y && b == x)
  {
    assert a in {a, b} && b in {a, b} && x in {x, y} && y in {x, y};
  }
}
