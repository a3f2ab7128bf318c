/** What a receiver gets out of one sender's chain, over whole runs of deliveries. */
module RoomDelivery {
  import opened Prelude
  import opened Sodium
  import opened SigningInputs
  import opened LargestIndices
  import opened Ratchet
  import opened RoomCrypto

  /** The sender side of one chain: who speaks, in which room and epoch, and the first chain key. */
  datatype Session = Session(room: string, sender: string, epoch: Uint64, keyId: string,
                             ck0: Secret, signer: SignSecret)
  {
    /** Names without bars (the server admits letters, digits, '_' and '-'), and keys of the right size. */
    ghost predicate Proper() {
      && Clean(room) && Clean(sender) && IsValidKeyId(keyId)
      && ck0.Size() == KEY_BYTES && IsKeyText(signer.public)
    }

    /** The one message that is ever sealed at index `i`. */
    function MessageAt(i: Uint32, text: Bytes, nonce: Nonce): SealedMessage {
      var aad := MessageAad(room, sender, epoch, keyId, i);
      var c := Encoded(AeadSealed(MessageKeyAt(ck0, i), nonce, aad, text));
      SealedMessage(epoch, keyId, i, Encoded(nonce), c,
                    Encoded(Signed(signer.public, ForMessage(aad, Encoded(nonce), c))))
    }

    lemma {:induction false} SealOne(n: nat, text: Bytes, nonce: Nonce)
      requires Proper() && n + 1 < TWO_32
      ensures Seal(Outbound(ChainAt(ck0, n), n, keyId), epoch, room, sender, text, signer, nonce)
           == (Outbound(ChainAt(ck0, n + 1), n + 1, keyId), Some(MessageAt(n, text, nonce)))
    {
      hide MessageAad;
      ChainAtSize(ck0, n);
    }

    function OpenAll(k: Inbound, events: seq<SealedMessage>): (Inbound, seq<Option<Bytes>>) {
      if events == [] then (k, [])
      else
        var n := |events| - 1;
        var (before, got) := OpenAll(k, events[..n]);
        var (after, last) := Open(before, events[n], room, sender, signer.public);
        (after, got + [last])
    }
  }

  lemma {:induction false} OpenAllLength(ss: Session, k: Inbound, events: seq<SealedMessage>)
    ensures |ss.OpenAll(k, events).1| == |events|
  {
    if events != [] {
      OpenAllLength(ss, k, events[..|events| - 1]);
    }
  }

  // ---- at most once ----------------------------------------------------------------------

  ghost predicate BelowWrap(events: seq<SealedMessage>) {
    forall t | 0 <= t < |events| :: events[t].index + 1 < TWO_32
  }

  lemma {:induction false} OpenConsumes(k: Inbound, m: SealedMessage, room: string, sender: string, public: string,
                                        index: Uint32)
    requires Orderly(k) && m.index + 1 < TWO_32
    ensures var (k', got) := Open(k, m, room, sender, public);
      && Orderly(k')
      && (got.Some? ==> Consumed(k', m.index))
      && (Consumed(k, index) ==> Consumed(k', index) && (m.index == index ==> got.None?))
  {
    hide CachedAfter, KeepLargestKeys, WithinCap;
    TakenIsConsumed(k, m.index);
    if Consumed(k, index) {
      ConsumedForever(k, m.index, index);
    }
  }

  lemma {:induction false} ConsumedAlongRun(ss: Session, k: Inbound, events: seq<SealedMessage>)
    requires Orderly(k) && BelowWrap(events)
    ensures var (k', got) := ss.OpenAll(k, events);
      && Orderly(k') && |got| == |events|
      && forall t | 0 <= t < |events| && got[t].Some? :: Consumed(k', events[t].index)
  {
    if events != [] {
      var n := |events| - 1;
      ConsumedAlongRun(ss, k, events[..n]);
      var (before, got) := ss.OpenAll(k, events[..n]);
      OpenConsumes(before, events[n], ss.room, ss.sender, ss.signer.public, 0);
      forall t | 0 <= t < n && got[t].Some?
        ensures Consumed(ss.OpenAll(k, events).0, events[t].index)
      {
        assert events[..n][t] == events[t];
        OpenConsumes(before, events[n], ss.room, ss.sender, ss.signer.public, events[t].index);
      }
    }
  }

  /**
   Over any run of arbitrary messages (genuine, replayed or forged) no index ever yields a
   plaintext twice.
   */
  lemma {:induction false} OpensAtMostOnce(ss: Session, k: Inbound, events: seq<SealedMessage>, a: nat, b: nat)
    requires Orderly(k) && BelowWrap(events) && a < b < |events|
    ensures |ss.OpenAll(k, events).1| == |events|
    ensures var got := ss.OpenAll(k, events).1;
      got[a].Some? && got[b].Some? ==> events[a].index != events[b].index
    decreases |events|
  {
    hide Open, Orderly, Consumed;
    var n := |events| - 1;
    OpenAllLength(ss, k, events[..n]);
    if b < n {
      OpensAtMostOnce(ss, k, events[..n], a, b);
    } else {
      ConsumedAlongRun(ss, k, events[..n]);
      OpenConsumes(ss.OpenAll(k, events[..n]).0, events[n], ss.room, ss.sender, ss.signer.public, events[a].index);
    }
  }

  // ---- one genuine message ---------------------------------------------------------------

  /** A message whose signature verifies was signed for one of the sealed messages. */
  ghost predicate Unforged(ss: Session, texts: seq<Bytes>, nonces: seq<Nonce>, m: SealedMessage)
    requires |texts| == |nonces| < TWO_32
  {
    Authenticated(m, ss.room, ss.sender, ss.signer.public) ==>
      exists i: Uint32 :: i < |texts| &&
        InputOf(m, ss.room, ss.sender) == InputOf(ss.MessageAt(i, texts[i], nonces[i]), ss.room, ss.sender)
  }

  /** Then its own index says which, and it carries that message's nonce and ciphertext. */
  lemma {:induction false} AuthenticIsGenuine(ss: Session, texts: seq<Bytes>, nonces: seq<Nonce>, m: SealedMessage)
    requires ss.Proper() && |texts| == |nonces| < TWO_32
    requires Unforged(ss, texts, nonces, m) && Authenticated(m, ss.room, ss.sender, ss.signer.public)
    ensures m.index < |texts|
    ensures m == ss.MessageAt(m.index, texts[m.index], nonces[m.index])
  {
    var i: Uint32 :| i < |texts| &&
      InputOf(m, ss.room, ss.sender) == InputOf(ss.MessageAt(i, texts[i], nonces[i]), ss.room, ss.sender);
    CleanAadUnique(AadFields(ss.room, ss.sender, ss.epoch, ss.keyId, i),
                   AadFields(ss.room, ss.sender, m.epoch, m.keyId, m.index));
  }

  /** A genuine message opens to its text exactly when its key is available and the text has at most 3056 bytes. */
  lemma {:induction false} GenuineOpens(ss: Session, k: Inbound, i: Uint32, text: Bytes, nonce: Nonce)
    requires ss.Proper() && Refines(ss.ck0, k) && i + 1 < TWO_32
    ensures var m := ss.MessageAt(i, text, nonce);
      Open(k, m, ss.room, ss.sender, ss.signer.public)
      == if HasIndex(k, i) && |text| <= 3056 then (Take(k, i).0, Some(text)) else (k, None)
  {
    hide CachedAfter, KeepLargestKeys, WithinCap, KeepLargest, Span, ChainAt;
    TakeRefines(ss.ck0, k, i);
    B64Cap(|text| + TAG_BYTES);
  }

  // ---- bounded reordering ----------------------------------------------------------------

  const MAX_AHEAD: nat := 200
  const MAX_BEHIND: nat := 202

  lemma {:induction false} SpanSize(from: nat, end: nat)
    requires from <= end
    ensures |Span(from, end)| == end - from
    decreases end
  {
    if from < end {
      SpanSize(from, end - 1);
    }
  }

  /**
   Skipping ahead to `index` keeps every cached or skipped position that will then be at most 202
   behind: the last consumed position is never in the cache, which leaves room for one more.
   */
  lemma {:induction false} KeptInWindow(cached: set<nat>, next: nat, index: nat, j: nat)
    requires next <= index <= next + MAX_AHEAD
    requires (forall x | x in cached :: x < next) && (next > 0 ==> next - 1 !in cached)
    requires j in cached || next <= j < index
    requires index + 1 <= j + MAX_BEHIND
    ensures j in KeepLargest(cached + Span(next, index), MAX_SKIPPED_MESSAGE_KEYS)
  {
    hide KeepLargest;
    KeptExactly(cached + Span(next, index), MAX_SKIPPED_MESSAGE_KEYS, j);
    AboveInWindow(cached, next, index, j);
  }

  lemma {:induction false} AboveInWindow(cached: set<nat>, next: nat, index: nat, j: nat)
    requires next <= index <= next + MAX_AHEAD
    requires (forall x | x in cached :: x < next) && (next > 0 ==> next - 1 !in cached)
    requires j in cached || next <= j < index
    requires index + 1 <= j + MAX_BEHIND
    ensures |Above(cached + Span(next, index), j)| < MAX_SKIPPED_MESSAGE_KEYS
  {
    hide Span;
    var above, rest := Above(cached + Span(next, index), j), Span(j + 1, index);
    SpanSize(j + 1, index);
    if j < next {
      var gap := next - 1;
      SubsetSize(above, rest - {gap});
    } else {
      SubsetSize(above, rest);
    }
  }

  /** The indices delivered so far, and the position after the largest of them. */
  datatype Progress = Progress(delivered: set<nat>, position: nat) {
    predicate FirstTime(m: SealedMessage, ss: Session) {
      Authenticated(m, ss.room, ss.sender, ss.signer.public) && m.index !in delivered
    }

    predicate InWindow(index: nat) {
      index <= position + MAX_AHEAD && position <= index + MAX_BEHIND
    }

    function After(m: SealedMessage, ss: Session): Progress {
      if FirstTime(m, ss)
      then Progress(delivered + {m.index}, if m.index < position then position else m.index + 1)
      else this
    }
  }

  function ProgressOf(ss: Session, events: seq<SealedMessage>): Progress {
    if events == [] then Progress({}, 0)
    else ProgressOf(ss, events[..|events| - 1]).After(events[|events| - 1], ss)
  }

  /** Every first delivery is at most 200 ahead of and at most 202 behind the position. */
  predicate Windowed(ss: Session, events: seq<SealedMessage>) {
    events == [] ||
    var n := |events| - 1;
    && Windowed(ss, events[..n])
    && (ProgressOf(ss, events[..n]).FirstTime(events[n], ss) ==> ProgressOf(ss, events[..n]).InWindow(events[n].index))
  }

  /** The receiver holds the key of every position it may still be asked for. */
  ghost predicate Tracks(ss: Session, k: Inbound, p: Progress) {
    && Refines(ss.ck0, k)
    && k.next == p.position
    && (forall j | j in p.delivered :: j < k.next && j !in k.skipped)
    && (k.next > 0 ==> k.next - 1 in p.delivered)
    && (forall j: nat | j < k.next && k.next <= j + MAX_BEHIND :: j in p.delivered || j in k.skipped)
  }

  lemma {:induction false} TracksAhead(ss: Session, k: Inbound, p: Progress, index: Uint32)
    requires Tracks(ss, k, p) && k.next <= index <= k.next + MAX_AHEAD && index + 1 < TWO_32
    ensures Tracks(ss, Take(k, index).0, Progress(p.delivered + {index}, index + 1))
  {
    hide KeepLargestKeys, KeepLargest, CachedAfter, WithinCap, Span, ChainAt;
    var k' := Take(k, index).0;
    TakeAhead(ss.ck0, k, index);
    forall j: nat | j < index + 1 && index + 1 <= j + MAX_BEHIND
      ensures j in p.delivered + {index} || j in k'.skipped
    {
      if j != index && j !in p.delivered {
        KeptInWindow(k.skipped.Keys, k.next, index, j);
      }
    }
    forall j | j in p.delivered + {index} ensures j !in k'.skipped.Keys {
    }
  }

  lemma {:induction false} TracksStep(ss: Session, k: Inbound, p: Progress, texts: seq<Bytes>, nonces: seq<Nonce>,
                                      m: SealedMessage)
    requires ss.Proper() && |texts| == |nonces| < TWO_32 - 1
    requires forall i | 0 <= i < |texts| :: |texts[i]| <= 3056
    requires Tracks(ss, k, p) && Unforged(ss, texts, nonces, m)
    requires p.FirstTime(m, ss) ==> p.InWindow(m.index)
    ensures var (k', got) := Open(k, m, ss.room, ss.sender, ss.signer.public);
      && Tracks(ss, k', p.After(m, ss))
      && (p.FirstTime(m, ss) ==> m.index < |texts| && got == Some(texts[m.index]))
      && (!p.FirstTime(m, ss) ==> got == None && k' == k)
  {
    hide KeepLargestKeys, KeepLargest, CachedAfter, WithinCap, Span, ChainAt;
    if Authenticated(m, ss.room, ss.sender, ss.signer.public) {
      AuthenticIsGenuine(ss, texts, nonces, m);
      GenuineOpens(ss, k, m.index, texts[m.index], nonces[m.index]);
      if m.index !in p.delivered {
        if m.index < k.next {
          TakeCached(ss.ck0, k, m.index);
        } else {
          TracksAhead(ss, k, p, m.index);
        }
      }
    }
  }

  /** What a delivery should answer: the sealed text the first time, and nothing otherwise. */
  predicate Answers(ss: Session, texts: seq<Bytes>, p: Progress, m: SealedMessage, got: Option<Bytes>) {
    if p.FirstTime(m, ss) then m.index < |texts| && got == Some(texts[m.index]) else got == None
  }

  /**
   Delivery under bounded reordering, in the presence of replays and forgeries: each sealed
   message opens to exactly its text the first time it arrives, and everything else is refused.
   */
  lemma {:induction false} BoundedReorderingDelivers(ss: Session, texts: seq<Bytes>, nonces: seq<Nonce>,
                                                     events: seq<SealedMessage>)
    requires ss.Proper() && |texts| == |nonces| < TWO_32 - 1
    requires forall i | 0 <= i < |texts| :: |texts[i]| <= 3056
    requires forall t | 0 <= t < |events| :: Unforged(ss, texts, nonces, events[t])
    requires Windowed(ss, events)
    ensures Tracks(ss, ss.OpenAll(FreshInbound(ss.ck0), events).0, ProgressOf(ss, events))
    ensures var got := ss.OpenAll(FreshInbound(ss.ck0), events).1;
      && |got| == |events|
      && forall t | 0 <= t < |events| :: Answers(ss, texts, ProgressOf(ss, events[..t]), events[t], got[t])
    decreases |events|
  {
    hide Tracks, Open, Unforged, Authenticated, Answers, Session.Proper, FreshInbound, Progress.FirstTime,
         Progress.InWindow, Progress.After;
    var k0 := FreshInbound(ss.ck0);
    OpenAllLength(ss, k0, events);
    if events == [] {
      TracksInitially(ss);
    } else {
      var n := |events| - 1;
      OpenAllLength(ss, k0, events[..n]);
      BoundedReorderingDelivers(ss, texts, nonces, events[..n]);
      DeliverOne(ss, ss.OpenAll(k0, events[..n]).0, ProgressOf(ss, events[..n]), texts, nonces, events[n]);
      var got := ss.OpenAll(k0, events).1;
      forall t | 0 <= t < n ensures Answers(ss, texts, ProgressOf(ss, events[..t]), events[t], got[t]) {
        assert events[..n][..t] == events[..t] && events[..n][t] == events[t];
      }
    }
  }

  lemma {:induction false} DeliverOne(ss: Session, k: Inbound, p: Progress, texts: seq<Bytes>, nonces: seq<Nonce>,
                                      m: SealedMessage)
    requires ss.Proper() && |texts| == |nonces| < TWO_32 - 1
    requires forall i | 0 <= i < |texts| :: |texts[i]| <= 3056
    requires Tracks(ss, k, p) && Unforged(ss, texts, nonces, m)
    requires p.FirstTime(m, ss) ==> p.InWindow(m.index)
    ensures var (k', got) := Open(k, m, ss.room, ss.sender, ss.signer.public);
      Tracks(ss, k', p.After(m, ss)) && Answers(ss, texts, p, m, got)
  {
    hide Tracks, Open, Unforged;
    TracksStep(ss, k, p, texts, nonces, m);
  }

  lemma {:induction false} TracksInitially(ss: Session)
    requires ss.Proper()
    ensures Tracks(ss, FreshInbound(ss.ck0), Progress({}, 0))
  {
  }

  lemma {:induction false} ZeroIsEvicted()
    ensures 0 !in KeepLargest(Span(0, 200) + Span(201, 202), MAX_SKIPPED_MESSAGE_KEYS)
  {
    hide KeepLargest, Span;
    var s := Span(0, 200) + Span(201, 202);
    KeptExactly(s, MAX_SKIPPED_MESSAGE_KEYS, 0);
    SpanSize(1, 201);
    SpanSize(1, 200);
    assert Above(s, 0) == Span(1, 200) + {201};
    assert 201 !in Span(1, 200);
  }

  lemma {:induction false} FirstJump(ck0: Secret)
    requires ck0.Size() == KEY_BYTES
    ensures var k := Take(FreshInbound(ck0), 200).0;
      Refines(ck0, k) && k.next == 201 && k.skipped.Keys == Span(0, 200)
  {
    hide KeepLargestKeys, KeepLargest, CachedAfter, WithinCap, ChainAt, Refines, Span;
    FreshRefines(ck0);
    TakeAhead(ck0, FreshInbound(ck0), 200);
    assert FreshInbound(ck0).skipped.Keys + Span(0, 200) == Span(0, 200);
    FirstJumpFits();
  }

  lemma {:induction false} FirstJumpFits()
    ensures KeepLargest(Span(0, 200), MAX_SKIPPED_MESSAGE_KEYS) == Span(0, 200)
  {
    hide Span;
    SpanSize(0, 200);
  }

  /** The bound of 202 is tight: after indices 200 and 202, index 0 (203 behind) is lost for ever. */
  lemma {:induction false} WindowIsTight(ck0: Secret)
    requires ck0.Size() == KEY_BYTES
    ensures var k := Take(Take(FreshInbound(ck0), 200).0, 202).0;
      k.next == 203 && Consumed(k, 0) && Take(k, 0) == (k, None)
  {
    hide KeepLargestKeys, KeepLargest, CachedAfter, WithinCap, ChainAt, Refines, Span;
    FirstJump(ck0);
    var k := Take(FreshInbound(ck0), 200).0;
    TakeAhead(ck0, k, 202);
    ZeroIsEvicted();
    ConsumedForever(Take(k, 202).0, 0, 0);
  }

  // ---- chain hand-over -------------------------------------------------------------------

  /**
   A receiver built from an envelope made after `n` seals holds the sender's key `n + i` at its
   own index `i`; it agrees with the sender on an index exactly when `n` is zero.
   */
  lemma {:induction false} HandOverShift(ck0: Secret, n: nat, i: nat)
    ensures MessageKeyAt(ChainAt(ck0, n), i) == MessageKeyAt(ck0, n + i)
    ensures MessageKeyAt(ChainAt(ck0, n), i) == MessageKeyAt(ck0, i) <==> n == 0
  {
    ChainAtAdds(ck0, n, i);
    KeysDistinct(ck0, n + i, i);
  }

  /** An envelope made after the first seal is useless: its receiver never opens any message of the chain. */
  lemma {:induction false} LateEnvelopeOpensNothing(ss: Session, n: nat, k: Inbound, i: Uint32, text: Bytes,
                                                    nonce: Nonce)
    requires ss.Proper() && n > 0 && Refines(ChainAt(ss.ck0, n), k) && i + 1 < TWO_32
    ensures Open(k, ss.MessageAt(i, text, nonce), ss.room, ss.sender, ss.signer.public) == (k, None)
  {
    hide CachedAfter, KeepLargestKeys, WithinCap, KeepLargest, Span, ChainAt;
    TakeRefines(ChainAt(ss.ck0, n), k, i);
    HandOverShift(ss.ck0, n, i);
  }

  /** With an envelope made before the first seal, the first message to arrive opens iff it is in reach. */
  lemma {:induction false} EarlyEnvelopeOpens(ss: Session, i: Uint32, text: Bytes, nonce: Nonce)
    requires ss.Proper() && i + 1 < TWO_32
    ensures Open(FreshInbound(ChainAt(ss.ck0, 0)), ss.MessageAt(i, text, nonce), ss.room, ss.sender, ss.signer.public).1
         == if i <= MAX_AHEAD && |text| <= 3056 then Some(text) else None
  {
    FreshRefines(ss.ck0);
    GenuineOpens(ss, FreshInbound(ss.ck0), i, text, nonce);
  }
}
