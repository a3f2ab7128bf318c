/** From one client to another: an envelope, then messages sealed by the one and opened by the other. */
module GroupDelivery {
  import opened Prelude
  import opened Sodium
  import opened SigningInputs
  import opened Ratchet
  import opened GroupManager
  import opened GroupInvariant
  import opened GroupRuns
  import RoomCrypto
  import opened RoomDelivery
  import opened GroupTrust
  import EpochProtocol
  import Trust = TrustStore

  // ---- the sender ------------------------------------------------------------------------

  /** The chain that a client's own key starts. */
  function SessionOf(c: Client, room: string): Session
    requires room in c.rooms && c.rooms[room].own.Some?
  {
    var st := c.rooms[room];
    Session(room, c.me.username, st.epoch, st.own.value.keyId, st.own.value.chain, c.me.signer)
  }

  /** Leaving a room and syncing it to another epoch give up its own key. */
  predicate Rekeys(op: Op, room: string, epoch: Uint64) {
    || (op.LeaveOp? && op.room == room)
    || (op.SyncOp? && op.room == room && op.epoch != epoch)
  }

  predicate SealsIn(op: Op, room: string) {
    op.SealOp? && op.room == room
  }

  /** What a run seals in a room: the texts, their nonces and the messages. */
  function TextsIn(ops: seq<Op>, room: string): seq<Bytes> {
    if ops == [] then []
    else
      var n := |ops| - 1;
      TextsIn(ops[..n], room) + (if SealsIn(ops[n], room) then [ops[n].plaintext] else [])
  }

  function NoncesIn(ops: seq<Op>, room: string): (nonces: seq<Nonce>)
    ensures |nonces| == |TextsIn(ops, room)|
  {
    if ops == [] then []
    else
      var n := |ops| - 1;
      NoncesIn(ops[..n], room) + (if SealsIn(ops[n], room) then [ops[n].nonce] else [])
  }

  ghost function SealedIn(c: Client, ops: seq<Op>, room: string): seq<Option<SealedMessage>> {
    if ops == [] then []
    else
      var n := |ops| - 1;
      SealedIn(c, ops[..n], room)
      + (if SealsIn(ops[n], room) then [Seal(Exec(c, ops[..n]), room, ops[n].plaintext, ops[n].nonce).1] else [])
  }

  /** A client whose own key of a room is at position `n` of the chain of `ss`. */
  ghost predicate AtPosition(c: Client, ss: Session, n: nat) {
    && n < TWO_32 && ss.room in c.rooms && c.me.username == ss.sender && c.me.signer == ss.signer
    && c.rooms[ss.room].own == Some(Outbound(ChainAt(ss.ck0, n), n, ss.keyId))
    && c.rooms[ss.room].epoch == ss.epoch && c.rooms[ss.room].ownEpoch == ss.epoch
  }

  lemma {:induction false} SealMovesOn(c: Client, ss: Session, n: nat, text: Bytes, nonce: Nonce)
    requires ss.Proper() && AtPosition(c, ss, n) && n + 1 < TWO_32
    ensures var (c', sealed) := Seal(c, ss.room, text, nonce);
      AtPosition(c', ss, n + 1) && sealed == Some(ss.MessageAt(n, text, nonce))
  {
    hide RoomCrypto.Seal, ChainAt, Session.MessageAt;
    ss.SealOne(n, text, nonce);
  }

  lemma {:induction false} OthersKeepPosition(c: Client, ss: Session, n: nat, op: Op)
    requires AtPosition(c, ss, n) && !Rekeys(op, ss.room, ss.epoch) && !SealsIn(op, ss.room)
    ensures AtPosition(Step(c, op).0, ss, n)
  {
    hide PassOver, SyncRoom, RoomCrypto.Seal, RoomCrypto.Open, ChainAt, AddChain, UnwrapFor, IllFormed, FindChain,
         EpochProtocol.AllMade, Trust.See, Trust.Step;
    EpochProtocol.IdentityKept(c, op);
    if Enabled(c, op) {
      match op
      case SyncOp(room, epoch, members, generated, nonce) =>
        EpochProtocol.SyncMakes(c, room, epoch, members, generated, nonce);
      case KeyOp(user, key, order, nonce) =>
        var trust := Trust.See(c.trust, user, key, "").0;
        EpochProtocol.PassOverMakes(CacheKey(c.(trust := trust), user, key), order, Some(user), nonce);
      case TickOp(order, nonce) => EpochProtocol.PassOverMakes(c, order, None, nonce);
      case _ =>
    }
  }

  /** Whatever else the sender does, as long as it keeps its key its seals are the messages of its chain, in order. */
  lemma {:induction false} SealsAlongRun(c: Client, ops: seq<Op>, ss: Session)
    requires ss.Proper() && AtPosition(c, ss, 0) && |TextsIn(ops, ss.room)| < TWO_32
    requires forall i | 0 <= i < |ops| :: !Rekeys(ops[i], ss.room, ss.epoch)
    ensures var texts, nonces := TextsIn(ops, ss.room), NoncesIn(ops, ss.room);
      && AtPosition(Exec(c, ops), ss, |texts|) && |SealedIn(c, ops, ss.room)| == |texts|
      && forall i | 0 <= i < |texts| :: SealedIn(c, ops, ss.room)[i] == Some(ss.MessageAt(i, texts[i], nonces[i]))
    decreases |ops|
  {
    hide Seal, AtPosition, Session.Proper, Session.MessageAt, Rekeys;
    if ops != [] {
      var n := |ops| - 1;
      SealsAlongRun(c, ops[..n], ss);
      var c1, k := Exec(c, ops[..n]), |TextsIn(ops[..n], ss.room)|;
      if SealsIn(ops[n], ss.room) {
        SealMovesOn(c1, ss, k, ops[n].plaintext, ops[n].nonce);
        assert Step(c1, ops[n]).0 == Seal(c1, ss.room, ops[n].plaintext, ops[n].nonce).0;
      } else {
        OthersKeepPosition(c1, ss, k, ops[n]);
      }
    }
  }

  // ---- the receiver ----------------------------------------------------------------------

  /** A client that holds a chain, and the signing key pinned for its sender. */
  ghost predicate Follows(c: Client, e: Entry, public: string) {
    && e.In(c) && e.epoch != 0 && IsValidKeyId(e.keyId)
    && e.sender in c.trust.pins.users && c.trust.pins.users[e.sender].ed == public && IsKeyText(public)
  }

  ghost predicate Addressed(p: Payload, e: Entry) {
    p.epoch == e.epoch && p.keyId == e.keyId && 0 <= p.index
  }

  /** Opening at the client is opening on the chain that epoch and key id select. */
  lemma {:induction false} OpenIsChainOpen(c: Client, e: Entry, p: Payload, public: string)
    requires e.In(c) && Follows(c, e, public) && Addressed(p, e)
    ensures var (c', got) := Open(c, e.room, e.sender, Some(p));
      && e.In(c') && Follows(c', e, public)
      && (e.Chain(c'), got) == RoomCrypto.Open(e.Chain(c), MessageOf(p), e.room, e.sender, public)
  {
    hide RoomCrypto.Open, FindChain;
    OpenMovesOneChain(c, e.room, e.sender, Some(p), e);
    if Open(c, e.room, e.sender, Some(p)).1.None? {
      RoomCrypto.RefusalKeepsChain(e.Chain(c), MessageOf(p), e.room, e.sender, public);
    }
  }

  /** The deliveries of a run to one chain, and how the client answers them. */
  ghost predicate Delivers(op: Op, e: Entry) {
    OpensEntry(op, e) && op.payload.value.index >= 0
  }

  ghost function MessagesTo(ops: seq<Op>, e: Entry): seq<SealedMessage> {
    if ops == [] then []
    else
      var n := |ops| - 1;
      MessagesTo(ops[..n], e) + (if Delivers(ops[n], e) then [MessageOf(ops[n].payload.value)] else [])
  }

  ghost function AnswersTo(c: Client, ops: seq<Op>, e: Entry): seq<Option<Bytes>> {
    if ops == [] then []
    else
      var n := |ops| - 1;
      AnswersTo(c, ops[..n], e)
      + (if Delivers(ops[n], e) then [Open(Exec(c, ops[..n]), e.room, e.sender, ops[n].payload).1] else [])
  }

  /** The client's chain and answers are those of a run on the chain alone. */
  ghost predicate Mirrors(run: (Client, seq<Option<Bytes>>), e: Entry, chain: (Inbound, seq<Option<Bytes>>)) {
    e.In(run.0) && e.Chain(run.0) == chain.0 && run.1 == chain.1
  }

  lemma {:induction false} PinKept(c: Client, op: Op, user: string)
    requires op != TrustOp(Trust.Accepted(user)) && user in c.trust.pins.users && c.trust.pins.users[user].ed != ""
    ensures user in Step(c, op).0.trust.pins.users
    ensures Step(c, op).0.trust.pins.users[user].ed == c.trust.pins.users[user].ed
  {
    hide Step;
    assert [op][..0] == [] && Exec(c, [op][..0]) == c;
    PinsOnlyMoveByAcceptance(c, [op], user);
  }

  lemma {:induction false} OtherOpFollows(c: Client, op: Op, e: Entry, public: string)
    requires ClientOk(c) && Follows(c, e, public) && e.In(Step(c, op).0)
    requires op != TrustOp(Trust.Accepted(e.sender)) && !Delivers(op, e)
    ensures Follows(Step(c, op).0, e, public) && e.Chain(Step(c, op).0) == e.Chain(c)
  {
    hide ClientOk, Step, HasChain, ChainOf;
    PinKept(c, op, e.sender);
    StepKeepsChain(c, op, e);
  }

  /**
   Whatever else the receiver does, as long as it keeps the chain and does not accept another key
   for the sender, the deliveries are answered as on the chain alone.
   */
  lemma {:induction false} DeliveriesAlongRun(c: Client, ops: seq<Op>, e: Entry, public: string, ss: Session,
                                              k: Inbound)
    requires ClientOk(c) && Follows(c, e, public) && k == e.Chain(c)
    requires Retained(c, ops, e) && NeverAcceptsKey(ops, e.sender)
    requires ss.room == e.room && ss.sender == e.sender && ss.signer.public == public
    ensures ClientOk(Exec(c, ops)) && Follows(Exec(c, ops), e, public)
    ensures Mirrors((Exec(c, ops), AnswersTo(c, ops, e)), e, ss.OpenAll(k, MessagesTo(ops, e)))
    decreases |ops|
  {
    hide ClientOk, Follows, Step, Open, RoomCrypto.Open, HasChain, ChainOf, Session.OpenAll, MessageOf, Retained,
         Delivers;
    RunOk(c, ops);
    if ops == [] {
      FollowsIn(c, e, public);
      OpenAllNothing(ss, k);
    } else {
      var n := |ops| - 1;
      RetainedPrefix(c, ops, e);
      DeliveriesAlongRun(c, ops[..n], e, public, ss, k);
      var c1, ms, got := Exec(c, ops[..n]), MessagesTo(ops[..n], e), AnswersTo(c, ops[..n], e);
      DeliverOneMore(c1, ops[n], e, public);
      if Delivers(ops[n], e) {
        DeliversPayload(ops[n], e);
        OpenAllOneMore(ss, k, ms, MessageOf(ops[n].payload.value));
      } else {
        assert ms + [] == ms && got + [] == got;
      }
    }
  }

  lemma {:induction false} DeliversPayload(op: Op, e: Entry)
    requires Delivers(op, e)
    ensures op.OpenOp? && op.payload.Some? && op.payload.value.index >= 0
  {
  }

  lemma {:induction false} OpenAllNothing(ss: Session, k: Inbound)
    ensures ss.OpenAll(k, []) == (k, [])
  {
  }

  lemma {:induction false} OpenAllOneMore(ss: Session, k: Inbound, ms: seq<SealedMessage>, m: SealedMessage)
    ensures var (k1, got) := ss.OpenAll(k, ms);
      var (k2, last) := RoomCrypto.Open(k1, m, ss.room, ss.sender, ss.signer.public);
      ss.OpenAll(k, ms + [m]) == (k2, got + [last])
  {
    hide RoomCrypto.Open;
    assert (ms + [m])[..|ms|] == ms;
  }

  lemma {:induction false} RetainedPrefix(c: Client, ops: seq<Op>, e: Entry)
    requires ops != [] && Retained(c, ops, e)
    ensures Retained(c, ops[..|ops| - 1], e) && e.In(Exec(c, ops))
  {
    hide Exec, HasChain;
    var n := |ops| - 1;
    forall i | 0 <= i <= n ensures e.In(Exec(c, ops[..n][..i])) {
      assert ops[..n][..i] == ops[..i];
    }
    assert ops[..|ops|] == ops;
  }

  /** One operation of the receiver: a delivery moves the chain as opening on it does, nothing else does. */
  lemma {:induction false} DeliverOneMore(c: Client, op: Op, e: Entry, public: string)
    requires ClientOk(c) && Follows(c, e, public) && e.In(Step(c, op).0) && op != TrustOp(Trust.Accepted(e.sender))
    ensures e.In(c) && Follows(Step(c, op).0, e, public)
    ensures Delivers(op, e) ==>
      (e.Chain(Step(c, op).0), Open(c, e.room, e.sender, op.payload).1)
      == RoomCrypto.Open(e.Chain(c), MessageOf(op.payload.value), e.room, e.sender, public)
    ensures !Delivers(op, e) ==> e.Chain(Step(c, op).0) == e.Chain(c)
  {
    hide ClientOk, Follows, Open, RoomCrypto.Open, HasChain, ChainOf, MessageOf;
    FollowsIn(c, e, public);
    if Delivers(op, e) {
      OpenIsChainOpen(c, e, op.payload.value, public);
    } else {
      OtherOpFollows(c, op, e, public);
    }
  }

  lemma {:induction false} FollowsIn(c: Client, e: Entry, public: string)
    requires Follows(c, e, public)
    ensures e.In(c)
  {
  }

  // ---- end to end ------------------------------------------------------------------------

  /** Two clients with usable keys; `a` knows the box key of `b`, and `b` has no conflicting pin for `a`. */
  ghost predicate Acquainted(a: Client, b: Client) {
    && a.me.username != "" && a.me.username != b.me.username && Clean(a.me.username)
    && IsKeyText(a.me.box.public) && IsKeyText(a.me.signer.public) && IsKeyText(b.me.box.public)
    && b.me.username in a.me.keys && a.me.keys[b.me.username] == b.me.box.public
    && Trust.See(b.trust, a.me.username, a.me.box.public, a.me.signer.public).1 != Trust.CHANGED
  }

  /** A room in which `a` has its key for the epoch. */
  ghost predicate Keyed(a: Client, room: string) {
    && room in a.rooms && a.rooms[room].own.Some? && OwnOk(a.rooms[room])
    && a.rooms[room].epoch != 0 && Clean(room) && |room| + |Decimal(a.rooms[room].epoch)| <= 2848
  }

  /** The envelope is made and accepted, and the receiver then follows the sender's chain from where it is. */
  lemma {:induction false} EnvelopeAccepted(a: Client, b: Client, room: string, nonce: Nonce)
    requires ClientOk(b) && Acquainted(a, b) && Keyed(a, room)
    requires var ss := SessionOf(a, room); !Entry(room, ss.sender, ss.epoch, ss.keyId).In(b)
    ensures var ss := SessionOf(a, room); var e := Entry(room, ss.sender, ss.epoch, ss.keyId);
      var env := MakeEnvelope(a.me, room, a.rooms[room], b.me.username, nonce);
      && env.Some?
      && ProcessEnvelope(b, env).1 == OK
      && e.In(ProcessEnvelope(b, env).0) && Follows(ProcessEnvelope(b, env).0, e, ss.signer.public)
      && e.Chain(ProcessEnvelope(b, env).0) == FreshInbound(ss.ck0)
  {
    hide ClientOk, RoomCrypto.Unwrap, HasChain, ChainOf;
    var st := a.rooms[room];
    var own := st.own.value;
    RoomCrypto.EnvelopeRoundTrip(room, a.me.username, b.me.username, st.epoch, own.keyId, own.chain, a.me.box,
                                 a.me.signer, b.me.box, nonce);
    var env := MakeEnvelope(a.me, room, st, b.me.username, nonce).value;
    ForgottenChainRestarts(b, env);
    Trust.ChangedAltersNoPin(b.trust, a.me.username, a.me.box.public, a.me.signer.public);
  }

  /**
   End to end: after the envelope both clients go on with whatever they do, the sender without giving
   up its key and the receiver without dropping the chain. Then everything the sender seals is
   delivered under bounded reordering, amid replays and forgeries, exactly once and intact.
   */
  lemma {:induction false} ClientsDeliver(a: Client, b: Client, ss: Session, nonce: Nonce, sends: seq<Op>,
                                          receives: seq<Op>)
    requires ss.Proper() && AtPosition(a, ss, 0)
    requires ClientOk(b) && Acquainted(a, b) && Keyed(a, ss.room)
    requires forall i | 0 <= i < |sends| :: !Rekeys(sends[i], ss.room, ss.epoch)
    requires |TextsIn(sends, ss.room)| < TWO_32 - 1
    requires forall text | text in TextsIn(sends, ss.room) :: |text| <= 3056
    requires var e := Entry(ss.room, ss.sender, ss.epoch, ss.keyId); var ms := MessagesTo(receives, e);
      var b1 := ProcessEnvelope(b, MakeEnvelope(a.me, ss.room, a.rooms[ss.room], b.me.username, nonce)).0;
      && !e.In(b) && Retained(b1, receives, e) && NeverAcceptsKey(receives, e.sender) && Windowed(ss, ms)
      && forall t | 0 <= t < |ms| :: Unforged(ss, TextsIn(sends, ss.room), NoncesIn(sends, ss.room), ms[t])
    ensures var e := Entry(ss.room, ss.sender, ss.epoch, ss.keyId);
      var env := MakeEnvelope(a.me, ss.room, a.rooms[ss.room], b.me.username, nonce);
      var texts, nonces, ms := TextsIn(sends, ss.room), NoncesIn(sends, ss.room), MessagesTo(receives, e);
      var sealed, got := SealedIn(a, sends, ss.room), AnswersTo(ProcessEnvelope(b, env).0, receives, e);
      && env.Some? && ProcessEnvelope(b, env).1 == OK
      && |sealed| == |texts| && (forall i | 0 <= i < |texts| :: sealed[i] == Some(ss.MessageAt(i, texts[i], nonces[i])))
      && |got| == |ms| && forall t | 0 <= t < |ms| :: Answers(ss, texts, ProgressOf(ss, ms[..t]), ms[t], got[t])
  {
    hide ClientOk, MakeEnvelope, ProcessEnvelope, Follows, HasChain, Answers, Unforged, TextsIn, NoncesIn, SealedIn,
         AnswersTo, MessagesTo, Session.OpenAll, Acquainted, ProgressOf, Windowed, Retained, Exec;
    var e := Entry(ss.room, ss.sender, ss.epoch, ss.keyId);
    var env := MakeEnvelope(a.me, ss.room, a.rooms[ss.room], b.me.username, nonce);
    SealsAlongRun(a, sends, ss);
    assert SessionOf(a, ss.room) == ss;
    EnvelopeAccepted(a, b, ss.room, nonce);
    EnvelopeOk(b, env);
    DeliveriesAlongRun(ProcessEnvelope(b, env).0, receives, e, ss.signer.public, ss, FreshInbound(ss.ck0));
    BoundedReorderingDelivers(ss, TextsIn(sends, ss.room), NoncesIn(sends, ss.room), MessagesTo(receives, e));
  }

  lemma {:induction false} SessionProper(a: Client, b: Client, room: string)
    requires Acquainted(a, b) && Keyed(a, room)
    ensures SessionOf(a, room).Proper()
  {
  }

  /** A message of this chain, as its sender sealed it. */
  ghost predicate OnChain(ss: Session, m: SealedMessage) {
    m.index + 1 < TWO_32 && exists text, nonce :: m == ss.MessageAt(m.index, text, nonce)
  }

  lemma {:induction false} LateOpensNothing(ss: Session, n: nat, messages: seq<SealedMessage>)
    requires ss.Proper() && n > 0 && forall t | 0 <= t < |messages| :: OnChain(ss, messages[t])
    ensures var (k, got) := ss.OpenAll(FreshInbound(ChainAt(ss.ck0, n)), messages);
      && k == FreshInbound(ChainAt(ss.ck0, n)) && |got| == |messages|
      && forall t | 0 <= t < |messages| :: got[t] == None
    decreases |messages|
  {
    hide RoomCrypto.Open, ChainAt, Session.MessageAt;
    if messages != [] {
      var i := |messages| - 1;
      LateOpensNothing(ss, n, messages[..i]);
      var k := FreshInbound(ChainAt(ss.ck0, n));
      ChainAtSize(ss.ck0, n);
      FreshRefines(ChainAt(ss.ck0, n));
      var text, nonce :| messages[i] == ss.MessageAt(messages[i].index, text, nonce);
      LateEnvelopeOpensNothing(ss, n, k, messages[i].index, text, nonce);
    }
  }

  /**
   The other side of the coin: if the envelope is made when the sender has already sealed something
   (at any position but the start of its chain), it is accepted all the same, and the receiver then
   opens none of the chain's messages, old or new, whatever it does in between.
   */
  lemma {:induction false} LateEnvelopeDeliversNothing(late: Client, b: Client, ss: Session, n: nat, nonce: Nonce,
                                                       receives: seq<Op>)
    requires ss.Proper() && AtPosition(late, ss, n) && n > 0
    requires ClientOk(b) && Acquainted(late, b) && Keyed(late, ss.room)
    requires var e := Entry(ss.room, ss.sender, ss.epoch, ss.keyId); var ms := MessagesTo(receives, e);
      var b1 := ProcessEnvelope(b, MakeEnvelope(late.me, ss.room, late.rooms[ss.room], b.me.username, nonce)).0;
      && !e.In(b) && Retained(b1, receives, e) && NeverAcceptsKey(receives, e.sender)
      && forall t | 0 <= t < |ms| :: OnChain(ss, ms[t])
    ensures var e := Entry(ss.room, ss.sender, ss.epoch, ss.keyId);
      var env := MakeEnvelope(late.me, ss.room, late.rooms[ss.room], b.me.username, nonce);
      var got := AnswersTo(ProcessEnvelope(b, env).0, receives, e);
      && env.Some? && ProcessEnvelope(b, env).1 == OK
      && |got| == |MessagesTo(receives, e)| && forall t | 0 <= t < |got| :: got[t] == None
  {
    hide ClientOk, MakeEnvelope, ProcessEnvelope, Follows, HasChain, AnswersTo, MessagesTo, Session.OpenAll,
         Acquainted, Retained, Exec, ChainAt, OnChain;
    var e := Entry(ss.room, ss.sender, ss.epoch, ss.keyId);
    var env := MakeEnvelope(late.me, ss.room, late.rooms[ss.room], b.me.username, nonce);
    EnvelopeAccepted(late, b, ss.room, nonce);
    EnvelopeOk(b, env);
    DeliveriesAlongRun(ProcessEnvelope(b, env).0, receives, e, ss.signer.public, ss, FreshInbound(ChainAt(ss.ck0, n)));
    LateOpensNothing(ss, n, MessagesTo(receives, e));
  }
}
