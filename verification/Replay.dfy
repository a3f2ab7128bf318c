/**
 When exactly a message can be opened twice: a chain that was dropped comes back with its envelope,
 from its start, and with it every message that its new position still reaches.
 */
module Replay {
  import opened Prelude
  import opened Sodium
  import opened SigningInputs
  import opened Ratchet
  import opened GroupManager
  import opened GroupInvariant
  import opened GroupRuns
  import opened GroupTrust
  import opened GroupDelivery
  import RoomCrypto
  import RoomDelivery
  import EpochProtocol
  import Trust = TrustStore

  // ---- only an envelope for an entry brings it in ----------------------------------------

  /** The operation delivers an envelope for this very entry. */
  ghost predicate Redelivers(op: Op, e: Entry) {
    && op.EnvelopeOp? && op.frame.Some? && op.frame.value.room == e.room && op.frame.value.from == e.sender
    && op.frame.value.epoch == e.epoch && op.frame.value.keyId == e.keyId
  }

  lemma {:induction false} OtherChainAdded(chains: seq<PeerChain>, added: PeerChain, epoch: Uint64, keyId: string)
    requires added.epoch != epoch || added.keyId != keyId
    requires var all := Newest(chains, MAX_CHAINS_PER_PEER - 1) + [added]; FindChain(all, epoch, keyId) < |all|
    ensures FindChain(chains, epoch, keyId) < |chains|
  {
    var kept := Newest(chains, MAX_CHAINS_PER_PEER - 1);
    var all := kept + [added];
    var x := all[FindChain(all, epoch, keyId)];
    assert x in kept;
    assert x in chains;
  }

  lemma {:induction false} EnvelopeAddsOnlyItsEntry(c: Client, frame: Option<Envelope>, e: Entry)
    requires e.In(ProcessEnvelope(c, frame).0) && !Redelivers(EnvelopeOp(frame), e)
    ensures e.In(c)
  {
    hide Trust.See, IllFormed, UnwrapFor, Newest, FindChain;
    if frame.Some? && UnwrapFor(c.me, frame.value).Some? {
      var env := frame.value;
      var st := RoomOf(c, env.room);
      var chains := if env.from in st.peers then st.peers[env.from] else [];
      var added := PeerChain(env.epoch, env.keyId, FreshInbound(UnwrapFor(c.me, env).value.chainKey));
      if env.room == e.room && env.from == e.sender && !e.In(c) {
        if ProcessEnvelope(c, frame).0.rooms == c.rooms[env.room := st.(peers := st.peers[env.from :=
             Newest(chains, MAX_CHAINS_PER_PEER - 1) + [added]])] {
          OtherChainAdded(chains, added, e.epoch, e.keyId);
        }
      }
    }
  }

  lemma {:induction false} OpenAddsNothing(c: Client, room: string, sender: string, payload: Option<Payload>, e: Entry)
    requires e.In(Open(c, room, sender, payload).0)
    ensures e.In(c)
  {
    hide RoomCrypto.Open, FindChain;
    if room == e.room && sender == e.sender && Open(c, room, sender, payload).1.Some? {
      var p := payload.value;
      var chains := c.rooms[room].peers[sender];
      var i := FindChain(chains, p.epoch, p.keyId);
      var k := RoomCrypto.Open(chains[i].chain, MessageOf(p), room, sender, c.trust.pins.users[sender].ed).0;
      UpdateFind(chains, i, k, e.epoch, e.keyId);
    }
  }

  lemma {:induction false} StepAddsNothing(c: Client, op: Op, e: Entry)
    requires ClientOk(c) && e.In(Step(c, op).0) && !Redelivers(op, e)
    ensures e.In(c)
  {
    hide PassOver, Sync, Open, ProcessEnvelope, ClientOk, FindChain, Trust.See, Trust.Step, RoomCrypto.Seal;
    if Enabled(c, op) {
      match op
      case SyncOp(_, _, _, _, _) => SyncKeepsChain(c, op, e);
      case KeyOp(user, key, order, nonce) =>
        var trust := Trust.See(c.trust, user, key, "").0;
        PassChangesServedOnly(CacheKey(c.(trust := trust), user, key), order, Some(user), nonce, e.room);
      case TickOp(order, nonce) => PassChangesServedOnly(c, order, None, nonce, e.room);
      case EnvelopeOp(frame) => EnvelopeAddsOnlyItsEntry(c, frame, e);
      case OpenOp(room, sender, payload) => OpenAddsNothing(c, room, sender, payload, e);
      case _ =>
    }
  }

  ghost predicate NeverRedelivers(ops: seq<Op>, e: Entry) {
    forall i | 0 <= i < |ops| :: !Redelivers(ops[i], e)
  }

  /** Without a redelivery, a chain that is held at the end of a run was held all along. */
  lemma {:induction false} HeldThroughout(c: Client, ops: seq<Op>, e: Entry)
    requires ClientOk(c) && NeverRedelivers(ops, e) && e.In(Exec(c, ops))
    ensures Retained(c, ops, e)
    decreases |ops|
  {
    hide ClientOk, Step, HasChain, Redelivers;
    assert ops[..|ops|] == ops;
    if ops != [] {
      var n := |ops| - 1;
      RunOk(c, ops[..n]);
      StepAddsNothing(Exec(c, ops[..n]), ops[n], e);
      HeldThroughout(c, ops[..n], e);
      forall i | 0 <= i <= |ops| ensures e.In(Exec(c, ops[..i])) {
        if i <= n {
          assert ops[..n][..i] == ops[..i];
        }
      }
    }
  }

  // ---- what a run leaves alone -----------------------------------------------------------

  lemma {:induction false} IdentityAlongRun(c: Client, ops: seq<Op>)
    ensures Exec(c, ops).me == c.me.(keys := Exec(c, ops).me.keys)
    decreases |ops|
  {
    hide Step;
    if ops != [] {
      IdentityAlongRun(c, ops[..|ops| - 1]);
      EpochProtocol.IdentityKept(Exec(c, ops[..|ops| - 1]), ops[|ops| - 1]);
    }
  }

  /** The envelope that started a chain: it unwraps for this client, under the keys pinned for its sender. */
  ghost predicate Starts(c: Client, env: Envelope, ck0: Secret) {
    && !IllFormed(c.me, env) && UnwrapFor(c.me, env).Some? && UnwrapFor(c.me, env).value.chainKey == ck0
    && env.from in c.trust.pins.users && c.trust.pins.users[env.from].x == env.wrapped.senderX
    && c.trust.pins.users[env.from].ed == env.wrapped.senderEd
  }

  function EntryOf(env: Envelope): Entry {
    Entry(env.room, env.from, env.epoch, env.keyId)
  }

  lemma {:induction false} StillStarts(c: Client, ops: seq<Op>, env: Envelope, ck0: Secret)
    requires Starts(c, env, ck0) && NeverAcceptsKey(ops, env.from)
    ensures Starts(Exec(c, ops), env, ck0)
  {
    hide Exec;
    IdentityAlongRun(c, ops);
    PinsOnlyMoveByAcceptance(c, ops, env.from);
  }

  /** Such an envelope is always accepted; a held chain stays as it is, a dropped one starts over. */
  lemma {:induction false} RedeliveryAccepted(c: Client, env: Envelope, ck0: Secret)
    requires ClientOk(c) && Starts(c, env, ck0)
    ensures var (c', status) := ProcessEnvelope(c, Some(env));
      && status == OK && Follows(c', EntryOf(env), env.wrapped.senderEd)
      && EntryOf(env).Chain(c') == if EntryOf(env).In(c) then EntryOf(env).Chain(c) else FreshInbound(ck0)
  {
    hide ClientOk, HasChain, ChainOf, UnwrapFor;
    ForgottenChainRestarts(c, env);
    UnwrapChecksKeys(c.me, env);
  }

  lemma {:induction false} UnwrapChecksKeys(me: Self, env: Envelope)
    requires UnwrapFor(me, env).Some?
    ensures IsKeyText(env.wrapped.senderEd) && IsValidKeyId(env.keyId)
  {
  }

  // ---- opening again ---------------------------------------------------------------------

  /** A message that opened at one state of a chain opens at another exactly when its key is available there. */
  lemma {:induction false} ReopensExactly(ck0: Secret, k: Inbound, k': Inbound, m: SealedMessage, room: string,
                                          sender: string, public: string)
    requires Refines(ck0, k) && Refines(ck0, k') && m.index + 1 < TWO_32
    requires RoomCrypto.Open(k, m, room, sender, public).1.Some?
    ensures RoomCrypto.Open(k', m, room, sender, public).1
         == if HasIndex(k', m.index) then RoomCrypto.Open(k, m, room, sender, public).1 else None
  {
    hide CachedAfter, KeepLargestKeys, WithinCap, ChainAt;
    TakeRefines(ck0, k, m.index);
    TakeRefines(ck0, k', m.index);
  }

  /** A first opening: the client holds the chain that the envelope starts, and the message opens on it. */
  ghost predicate OpensFirst(c: Client, env: Envelope, ck0: Secret, p: Payload) {
    && ClientOk(c) && Starts(c, env, ck0) && EntryOf(env).In(c) && Refines(ck0, EntryOf(env).Chain(c))
    && Addressed(p, EntryOf(env)) && Narrow(p.index) + 1 < TWO_32
    && Open(c, env.room, env.from, Some(p)).1.Some?
  }

  lemma {:induction false} OpenRefines(ck0: Secret, k: Inbound, m: SealedMessage, room: string, sender: string,
                                       public: string)
    requires Refines(ck0, k) && m.index + 1 < TWO_32
    ensures Refines(ck0, RoomCrypto.Open(k, m, room, sender, public).0)
  {
    hide CachedAfter, KeepLargestKeys, WithinCap, ChainAt;
    TakeRefines(ck0, k, m.index);
  }

  /** A client for which the envelope is good, and whose chain, if it holds it, is the one the envelope starts. */
  ghost predicate OnTrack(c: Client, env: Envelope, ck0: Secret) {
    && ClientOk(c) && Starts(c, env, ck0)
    && (EntryOf(env).In(c) ==> Refines(ck0, EntryOf(env).Chain(c)))
  }

  /** After the first opening the client is still on track, holds the chain, and the index is consumed. */
  lemma {:induction false} AfterFirst(c: Client, env: Envelope, ck0: Secret, p: Payload)
    requires OpensFirst(c, env, ck0, p)
    ensures var c' := Open(c, env.room, env.from, Some(p)).0;
      && OnTrack(c', env, ck0) && EntryOf(env).In(c')
      && Orderly(EntryOf(env).Chain(c')) && Consumed(EntryOf(env).Chain(c'), Narrow(p.index))
  {
    hide ClientOk, HasChain, ChainOf, RoomCrypto.Open, UnwrapFor, IllFormed, Consumed, Refines;
    var e := EntryOf(env);
    OpenOk(c, env.room, env.from, Some(p));
    OpenMovesOneChain(c, env.room, env.from, Some(p), e);
    RefinesIsOrderly(ck0, e.Chain(c));
    RoomDelivery.OpenConsumes(e.Chain(c), MessageOf(p), env.room, env.from, c.trust.pins.users[env.from].ed, 0);
    OpenRefines(ck0, e.Chain(c), MessageOf(p), env.room, env.from, c.trust.pins.users[env.from].ed);
  }

  lemma {:induction false} RefinesIsOrderly(ck0: Secret, k: Inbound)
    requires Refines(ck0, k)
    ensures Orderly(k)
  {
  }

  /** An operation below the wrap that brings this chain in, if at all, with this envelope, and keeps the pin. */
  ghost predicate Admissible(op: Op, env: Envelope) {
    && BelowWrap(op) && op != TrustOp(Trust.Accepted(env.from))
    && (Redelivers(op, EntryOf(env)) ==> op == EnvelopeOp(Some(env)))
  }

  lemma {:induction false} StepOnTrack(c: Client, env: Envelope, ck0: Secret, op: Op)
    requires OnTrack(c, env, ck0) && Admissible(op, env)
    ensures OnTrack(Step(c, op).0, env, ck0)
  {
    hide ClientOk, HasChain, ChainOf, Open, RoomCrypto.Open, ProcessEnvelope, Starts, Refines, MessageOf, OpensEntry,
         Step;
    var e := EntryOf(env);
    var c' := Step(c, op).0;
    StepOk(c, op);
    StartsStep(c, env, ck0, op);
    if e.In(c') {
      if op == EnvelopeOp(Some(env)) {
        RedeliveryAccepted(c, env, ck0);
        EnvelopeStep(c, env);
        StartsSize(c, env, ck0);
        FreshRefines(ck0);
      } else {
        StepAddsNothing(c, op, e);
        HeldStep(c, env, ck0, op);
      }
    }
  }

  lemma {:induction false} StartsStep(c: Client, env: Envelope, ck0: Secret, op: Op)
    requires Starts(c, env, ck0) && op != TrustOp(Trust.Accepted(env.from))
    ensures Starts(Step(c, op).0, env, ck0)
  {
    hide Starts, Step;
    assert [op][..0] == [] && Exec(c, [op][..0]) == c;
    StillStarts(c, [op], env, ck0);
  }

  lemma {:induction false} EnvelopeStep(c: Client, env: Envelope)
    ensures Step(c, EnvelopeOp(Some(env))).0 == ProcessEnvelope(c, Some(env)).0
  {
    hide ProcessEnvelope;
  }

  lemma {:induction false} StartsSize(c: Client, env: Envelope, ck0: Secret)
    requires Starts(c, env, ck0)
    ensures ck0.Size() == KEY_BYTES
  {
  }

  /** While the chain is held, only opening moves it, and opening keeps to the chain. */
  lemma {:induction false} HeldStep(c: Client, env: Envelope, ck0: Secret, op: Op)
    requires OnTrack(c, env, ck0) && BelowWrap(op) && EntryOf(env).In(c) && EntryOf(env).In(Step(c, op).0)
    ensures Refines(ck0, EntryOf(env).Chain(Step(c, op).0))
  {
    hide ClientOk, HasChain, ChainOf, Open, RoomCrypto.Open, ProcessEnvelope, Starts, Refines, PassOver, SyncRoom;
    var e := EntryOf(env);
    if OpensEntry(op, e) && Open(c, e.room, e.sender, op.payload).1.Some? {
      OpenMovesOneChain(c, e.room, e.sender, op.payload, e);
      OpenRefines(ck0, e.Chain(c), MessageOf(op.payload.value), e.room, e.sender, c.trust.pins.users[e.sender].ed);
    } else {
      StepKeepsChain(c, op, e);
    }
  }

  ghost predicate AllAdmissible(ops: seq<Op>, env: Envelope) {
    forall i | 0 <= i < |ops| :: Admissible(ops[i], env)
  }

  lemma {:induction false} RunOnTrack(c: Client, env: Envelope, ck0: Secret, ops: seq<Op>)
    requires OnTrack(c, env, ck0) && AllAdmissible(ops, env)
    ensures OnTrack(Exec(c, ops), env, ck0)
    decreases |ops|
  {
    hide OnTrack, Admissible, Step;
    if ops != [] {
      var n := |ops| - 1;
      RunOnTrack(c, env, ck0, ops[..n]);
      StepOnTrack(Exec(c, ops[..n]), env, ck0, ops[n]);
    }
  }

  /**
   Replay, exactly. A message was opened; then anything happened, with the chain dropped and its
   envelope delivered again any number of times and any messages opened in between, but no new key
   of its sender accepted. A replay of the message now opens, and to the same text, if and only if
   the chain is held and its position or cache has the index (`has_index`).
   */
  lemma {:induction false} ReplayExactly(c: Client, env: Envelope, ck0: Secret, p: Payload, ops: seq<Op>)
    requires OpensFirst(c, env, ck0, p) && AllAdmissible(ops, env)
    ensures var (c1, text) := Open(c, env.room, env.from, Some(p));
      var c2 := Exec(c1, ops);
      Open(c2, env.room, env.from, Some(p)).1
      == if EntryOf(env).In(c2) && HasIndex(EntryOf(env).Chain(c2), Narrow(p.index)) then text else None
  {
    hide ClientOk, HasChain, ChainOf, RoomCrypto.Open, ProcessEnvelope, Open, Exec, Starts, Follows, Narrow,
         Refines, Admissible, HasIndex;
    var e := EntryOf(env);
    var c1 := Open(c, env.room, env.from, Some(p)).0;
    var c2 := Exec(c1, ops);
    AfterFirst(c, env, ck0, p);
    RunOnTrack(c1, env, ck0, ops);
    if e.In(c2) {
      HolderFollows(c2, env, ck0);
      OpenIsChainOpen(c2, e, p, env.wrapped.senderEd);
      FirstOnChain(c, env, ck0, p);
      ReopensExactly(ck0, e.Chain(c), e.Chain(c2), MessageOf(p), e.room, e.sender, env.wrapped.senderEd);
    } else {
      NotHeldRefuses(c2, e, p);
    }
  }

  lemma {:induction false} HolderFollows(c: Client, env: Envelope, ck0: Secret)
    requires Starts(c, env, ck0) && EntryOf(env).In(c)
    ensures Follows(c, EntryOf(env), env.wrapped.senderEd)
  {
    hide HasChain, UnwrapFor;
    UnwrapChecksKeys(c.me, env);
  }

  lemma {:induction false} NotHeldRefuses(c: Client, e: Entry, p: Payload)
    requires Addressed(p, e) && !e.In(c)
    ensures Open(c, e.room, e.sender, Some(p)) == (c, None)
  {
    hide HasChain;
  }

  /** The first opening, seen on the chain. */
  lemma {:induction false} FirstOnChain(c: Client, env: Envelope, ck0: Secret, p: Payload)
    requires OpensFirst(c, env, ck0, p)
    ensures RoomCrypto.Open(EntryOf(env).Chain(c), MessageOf(p), env.room, env.from, env.wrapped.senderEd).1
         == Open(c, env.room, env.from, Some(p)).1
  {
    hide ClientOk, HasChain, ChainOf, RoomCrypto.Open, UnwrapFor;
    OpenMovesOneChain(c, env.room, env.from, Some(p), EntryOf(env));
  }

  /** Without a redelivery of its envelope, no run whatever lets an opened index of the chain open again. */
  lemma {:induction false} OncePerDelivery(c: Client, e: Entry, first: Payload, ops: seq<Op>, replay: Payload)
    requires ClientOk(c) && e.In(c) && Orderly(e.Chain(c)) && Addressed(first, e) && Addressed(replay, e)
    requires Narrow(first.index) == Narrow(replay.index) < TWO_32 - 1
    requires Open(c, e.room, e.sender, Some(first)).1.Some?
    requires NeverRedelivers(ops, e) && forall op | op in ops :: BelowWrap(op)
    ensures Open(Exec(Open(c, e.room, e.sender, Some(first)).0, ops), e.room, e.sender, Some(replay)).1 == None
  {
    hide ClientOk, HasChain, ChainOf, Open, Exec, Orderly, BelowWrap, Redelivers;
    var c1 := Open(c, e.room, e.sender, Some(first)).0;
    OpenOk(c, e.room, e.sender, Some(first));
    if e.In(Exec(c1, ops)) {
      HeldThroughout(c1, ops, e);
      ReplayRefused(c, e, first, ops, replay);
    } else {
      NotHeldRefuses(Exec(c1, ops), e, replay);
    }
  }

  // ---- the whole conversation ------------------------------------------------------------

  /**
   Once the chain has been dropped and its envelope delivered again, a whole recorded conversation,
   of any length, is answered as it was the first time.
   */
  lemma {:induction false} ConversationReplays(c: Client, env: Envelope, ck0: Secret, first: seq<Op>,
                                               between: seq<Op>, again: seq<Op>)
    requires OnTrack(c, env, ck0) && EntryOf(env).In(c) && EntryOf(env).Chain(c) == FreshInbound(ck0)
    requires AllAdmissible(first, env) && AllAdmissible(between, env) && AllAdmissible(again, env)
    requires var c2 := Exec(Exec(c, first), between); var c3 := ProcessEnvelope(c2, Some(env)).0;
      && Retained(c, first, EntryOf(env)) && !EntryOf(env).In(c2) && Retained(c3, again, EntryOf(env))
      && MessagesTo(again, EntryOf(env)) == MessagesTo(first, EntryOf(env))
    ensures var c3 := ProcessEnvelope(Exec(Exec(c, first), between), Some(env)).0;
      AnswersTo(c3, again, EntryOf(env)) == AnswersTo(c, first, EntryOf(env))
  {
    hide ClientOk, HasChain, ChainOf, ProcessEnvelope, Exec, Starts, Follows, Refines, Admissible, AnswersTo,
         MessagesTo, Retained;
    var e := EntryOf(env);
    var c2 := Exec(Exec(c, first), between);
    var c3 := ProcessEnvelope(c2, Some(env)).0;
    RunOnTrack(c, env, ck0, first);
    RunOnTrack(Exec(c, first), env, ck0, between);
    RedeliveryAccepted(c2, env, ck0);
    EnvelopeOk(c2, Some(env));
    HolderFollows(c, env, ck0);
    AdmissibleKeepsPin(first, env);
    AdmissibleKeepsPin(again, env);
    var ss := RoomDelivery.Session(env.room, env.from, env.epoch, env.keyId, ck0, SignSecret(env.wrapped.senderEd));
    DeliveriesAlongRun(c, first, e, env.wrapped.senderEd, ss, FreshInbound(ck0));
    DeliveriesAlongRun(c3, again, e, env.wrapped.senderEd, ss, FreshInbound(ck0));
  }

  lemma {:induction false} AdmissibleKeepsPin(ops: seq<Op>, env: Envelope)
    requires AllAdmissible(ops, env)
    ensures NeverAcceptsKey(ops, env.from)
  {
    hide BelowWrap, Redelivers;
  }

  // ---- when a chain is dropped -----------------------------------------------------------

  /** An envelope that adds a chain to the list of its sender. */
  ghost predicate Adds(c: Client, env: Envelope) {
    && !IllFormed(c.me, env) && UnwrapFor(c.me, env).Some?
    && Trust.See(c.trust, env.from, env.wrapped.senderX, env.wrapped.senderEd).1 != Trust.CHANGED
    && !EntryOf(env).In(c)
  }

  /** The entry is the oldest of a full list. */
  ghost predicate OldestOfFull(c: Client, e: Entry) {
    && e.room in c.rooms && e.sender in c.rooms[e.room].peers
    && (var chains := c.rooms[e.room].peers[e.sender];
        |chains| == 6 && chains[0].epoch == e.epoch && chains[0].keyId == e.keyId)
  }

  /** Leaving the room, a sync to an epoch that the chain does not survive, or a newer chain of the same sender. */
  ghost predicate Drops(c: Client, op: Op, e: Entry) {
    || op == LeaveOp(e.room)
    || (op.SyncOp? && op.room == e.room && Enabled(c, op) && op.epoch > (e.epoch + 2) % TWO_64)
    || (op.EnvelopeOp? && op.frame.Some? && op.frame.value.room == e.room && op.frame.value.from == e.sender
        && Adds(c, op.frame.value) && OldestOfFull(c, e))
  }

  lemma {:induction false} SurvivingFinds(epoch: Uint64, chains: seq<PeerChain>, e: Entry)
    requires FindChain(chains, e.epoch, e.keyId) < |chains|
    ensures FindChain(Surviving(epoch, chains), e.epoch, e.keyId) < |Surviving(epoch, chains)|
       <==> epoch <= (e.epoch + 2) % TWO_64
  {
    hide FindChain, Surviving;
    var keep := SurvivingSelects(epoch, chains);
    var kept := Surviving(epoch, chains);
    forall i | 0 <= i < |kept| ensures Survives(epoch, kept[i]) {
      assert keep[i] in keep;
    }
    var x := FindChain(chains, e.epoch, e.keyId);
    if Survives(epoch, chains[x]) {
      var i :| 0 <= i < |keep| && keep[i] == x;
      assert kept[i] == chains[x];
    }
  }

  lemma {:induction false} SyncDropsExactly(c: Client, op: Op, e: Entry)
    requires ClientOk(c) && e.In(c) && op.SyncOp? && op.room == e.room && Enabled(c, op)
    ensures !e.In(Step(c, op).0) <==> op.epoch > (e.epoch + 2) % TWO_64
  {
    hide FindChain, SyncRoom, Surviving, EpochProtocol.AllMade, ListOk;
    EpochProtocol.SyncMakes(c, op.room, op.epoch, op.members, op.generated, op.nonce);
    var st := c.rooms[op.room].(epoch := op.epoch);
    assert RoomOk(c.rooms[op.room]) && PeersOk(st);
    PruneExact(st, e.sender);
    SurvivingFinds(op.epoch, st.peers[e.sender], e);
  }

  lemma {:induction false} EvictsExactly(chains: seq<PeerChain>, added: PeerChain, e: Entry)
    requires ListOk(chains) && FindChain(chains, e.epoch, e.keyId) < |chains|
    requires added.epoch != e.epoch || added.keyId != e.keyId
    ensures var all := Newest(chains, MAX_CHAINS_PER_PEER - 1) + [added];
      FindChain(all, e.epoch, e.keyId) == |all|
      <==> |chains| == MAX_CHAINS_PER_PEER && chains[0].epoch == e.epoch && chains[0].keyId == e.keyId
  {
    hide ChainsOk, FindChain;
    var x := FindChain(chains, e.epoch, e.keyId);
    var kept := Newest(chains, MAX_CHAINS_PER_PEER - 1);
    var all := kept + [added];
    var from := |chains| - |kept|;
    if x < from {
      NoDuplicates(chains, x);
      forall i | 0 <= i < |all| ensures all[i].epoch != e.epoch || all[i].keyId != e.keyId {
        if i < |kept| {
          assert all[i] == chains[from + i];
        }
      }
    } else {
      assert all[x - from] == chains[x];
    }
  }

  lemma {:induction false} NoDuplicates(chains: seq<PeerChain>, x: nat)
    requires ListOk(chains) && x < |chains|
    ensures forall i | x < i < |chains| :: chains[i].epoch != chains[x].epoch || chains[i].keyId != chains[x].keyId
  {
    hide ChainOk;
    assert forall i | x < i < |chains| :: Distinct(chains[x], chains[i]);
  }

  lemma {:induction false} EnvelopeDropsExactly(c: Client, env: Envelope, e: Entry)
    requires ClientOk(c) && e.In(c)
    ensures !e.In(ProcessEnvelope(c, Some(env)).0)
       <==> env.room == e.room && env.from == e.sender && Adds(c, env) && OldestOfFull(c, e)
  {
    hide ListOk, Trust.See, IllFormed, UnwrapFor, Newest, FindChain;
    if env.room == e.room && env.from == e.sender && Adds(c, env) {
      assert RoomOk(c.rooms[e.room]);
      var chains := c.rooms[e.room].peers[e.sender];
      EvictsExactly(chains, PeerChain(env.epoch, env.keyId, FreshInbound(UnwrapFor(c.me, env).value.chainKey)), e);
    }
  }

  lemma {:induction false} OpenKeepsEntry(c: Client, op: Op, e: Entry)
    requires e.In(c) && op.OpenOp?
    ensures e.In(Step(c, op).0)
  {
    hide Open, HasChain, ChainOf, RoomCrypto.Open;
    OpenMovesOneChain(c, op.room, op.sender, op.payload, e);
  }

  /** A step drops a held chain exactly in these three cases. */
  lemma {:induction false} DroppedExactly(c: Client, op: Op, e: Entry)
    requires ClientOk(c) && e.In(c)
    ensures !e.In(Step(c, op).0) <==> Drops(c, op, e)
  {
    hide PassOver, Sync, Open, ProcessEnvelope, ClientOk, FindChain, Trust.See, Trust.Step, RoomCrypto.Seal, Adds,
         OldestOfFull;
    match op
    case SyncOp(room, _, _, _, _) => if Enabled(c, op) && room == e.room { SyncDropsExactly(c, op, e); }
    case KeyOp(user, key, order, nonce) =>
      if Enabled(c, op) {
        var trust := Trust.See(c.trust, user, key, "").0;
        PassChangesServedOnly(CacheKey(c.(trust := trust), user, key), order, Some(user), nonce, e.room);
      }
    case TickOp(order, nonce) => if Enabled(c, op) { PassChangesServedOnly(c, order, None, nonce, e.room); }
    case EnvelopeOp(frame) =>
      if frame.Some? {
        EnvelopeDropsExactly(c, frame.value, e);
      } else {
        EpochProtocol.NoFrame(c);
      }
    case OpenOp(_, _, _) => OpenKeepsEntry(c, op, e);
    case _ =>
  }

  /**
   So each of the three makes the first 201 messages of the chain open a second time, once its
   envelope is delivered again.
   */
  lemma {:induction false} ForgettingReopens(c: Client, env: Envelope, ck0: Secret, p: Payload, op: Op)
    requires OpensFirst(c, env, ck0, p) && Narrow(p.index) <= MAX_SKIPPED_MESSAGE_KEYS
    requires Drops(Open(c, env.room, env.from, Some(p)).0, op, EntryOf(env))
    ensures var (c1, text) := Open(c, env.room, env.from, Some(p));
      var c3 := ProcessEnvelope(Step(c1, op).0, Some(env)).0;
      text.Some? && Open(c3, env.room, env.from, Some(p)).1 == text
  {
    hide ClientOk, HasChain, ChainOf, Open, ProcessEnvelope, Starts, Refines, Step, Drops;
    var e := EntryOf(env);
    var c1 := Open(c, env.room, env.from, Some(p)).0;
    AfterFirst(c, env, ck0, p);
    DroppedExactly(c1, op, e);
    DropIsAdmissible(c1, op, env);
    var ops := [op, EnvelopeOp(Some(env))];
    assert ops[..1] == [op] && ops[..1][..0] == [] && Exec(c1, ops[..1][..0]) == c1;
    assert Exec(c1, ops[..1]) == Step(c1, op).0;
    StepOnTrack(c1, env, ck0, op);
    RedeliveryAccepted(Step(c1, op).0, env, ck0);
    EnvelopeStep(Step(c1, op).0, env);
    assert AllAdmissible(ops, env);
    FollowsIn(ProcessEnvelope(Step(c1, op).0, Some(env)).0, e, env.wrapped.senderEd);
    ReplayExactly(c, env, ck0, p, ops);
  }

  lemma {:induction false} DropIsAdmissible(c: Client, op: Op, env: Envelope)
    requires Drops(c, op, EntryOf(env)) && EntryOf(env).In(c)
    ensures Admissible(op, env)
  {
    hide HasChain, UnwrapFor, Trust.See, IllFormed, OldestOfFull;
  }

  // ---- between two clients ---------------------------------------------------------------

  function PayloadOf(m: SealedMessage): Payload {
    Payload(m.epoch, m.keyId, m.index, m.nonce, m.ciphertext, m.signature)
  }

  lemma {:induction false} AcceptedStarts(a: Client, b: Client, room: string, nonce: Nonce)
    requires ClientOk(b) && Acquainted(a, b) && Keyed(a, room)
    requires MakeEnvelope(a.me, room, a.rooms[room], b.me.username, nonce).Some?
    ensures var env := MakeEnvelope(a.me, room, a.rooms[room], b.me.username, nonce).value;
      Starts(ProcessEnvelope(b, Some(env)).0, env, SessionOf(a, room).ck0)
  {
    hide ClientOk, RoomCrypto.Unwrap, Trust.See, AddChain, FindChain;
    var st := a.rooms[room];
    RoomCrypto.EnvelopeRoundTrip(room, a.me.username, b.me.username, st.epoch, st.own.value.keyId, st.own.value.chain,
                                 a.me.box, a.me.signer, b.me.box, nonce);
    Trust.ChangedAltersNoPin(b.trust, a.me.username, a.me.box.public, a.me.signer.public);
  }

  /** The message with index `i` is the first to arrive after the envelope. */
  lemma {:induction false} ArrivesFirst(a: Client, b: Client, room: string, nonce: Nonce, i: Uint32, text: Bytes,
                                        sealNonce: Nonce)
    requires ClientOk(b) && Acquainted(a, b) && Keyed(a, room) && i <= MAX_SKIPPED_MESSAGE_KEYS && |text| <= 3056
    requires var ss := SessionOf(a, room); !Entry(room, ss.sender, ss.epoch, ss.keyId).In(b)
    ensures var ss := SessionOf(a, room); var p := PayloadOf(ss.MessageAt(i, text, sealNonce));
      var env := MakeEnvelope(a.me, room, a.rooms[room], b.me.username, nonce);
      && env.Some?
      && OpensFirst(ProcessEnvelope(b, env).0, env.value, ss.ck0, p)
      && Open(ProcessEnvelope(b, env).0, room, ss.sender, Some(p)).1 == Some(text)
  {
    hide ClientOk, HasChain, ChainOf, Open, RoomCrypto.Open, ProcessEnvelope, Starts, Follows, Acquainted,
         RoomDelivery.Session.MessageAt;
    var ss := SessionOf(a, room);
    var e := Entry(room, ss.sender, ss.epoch, ss.keyId);
    EnvelopeAccepted(a, b, room, nonce);
    MadeFor(a.me, room, a.rooms[room], b.me.username, nonce);
    var env := MakeEnvelope(a.me, room, a.rooms[room], b.me.username, nonce);
    var b1 := ProcessEnvelope(b, env).0;
    AcceptedStarts(a, b, room, nonce);
    EnvelopeOk(b, env);
    SessionProper(a, b, room);
    FreshRefines(ss.ck0);
    var p := PayloadOf(ss.MessageAt(i, text, sealNonce));
    PayloadRoundTrip(ss, i, text, sealNonce);
    FollowsIn(b1, e, ss.signer.public);
    OpenIsChainOpen(b1, e, p, ss.signer.public);
    RoomDelivery.EarlyEnvelopeOpens(ss, i, text, sealNonce);
  }

  lemma {:induction false} PayloadRoundTrip(ss: RoomDelivery.Session, i: Uint32, text: Bytes, nonce: Nonce)
    ensures var m := ss.MessageAt(i, text, nonce);
      MessageOf(PayloadOf(m)) == m && m.epoch == ss.epoch && m.keyId == ss.keyId && m.index == i
  {
  }

  /**
   The failing input. An envelope, a message that opens, then leaving the room or a sync three epochs
   on, the same envelope again and the same message again: its text is delivered twice.
   */
  lemma {:induction false} DeliveredTwice(a: Client, b: Client, room: string, nonce: Nonce, i: Uint32, text: Bytes,
                                          sealNonce: Nonce, op: Op)
    requires ClientOk(b) && Acquainted(a, b) && Keyed(a, room) && i <= MAX_SKIPPED_MESSAGE_KEYS && |text| <= 3056
    requires var ss := SessionOf(a, room); !Entry(room, ss.sender, ss.epoch, ss.keyId).In(b)
    requires op == LeaveOp(room)
          || (op.SyncOp? && op.room == room && IsGenerated(op.generated) && a.rooms[room].epoch + 2 < op.epoch)
    ensures var ss := SessionOf(a, room); var p := Some(PayloadOf(ss.MessageAt(i, text, sealNonce)));
      var env := MakeEnvelope(a.me, room, a.rooms[room], b.me.username, nonce);
      var (b1, first) := Open(ProcessEnvelope(b, env).0, room, ss.sender, p);
      var second := Open(ProcessEnvelope(Step(b1, op).0, env).0, room, ss.sender, p).1;
      first == Some(text) && second == Some(text)
  {
    hide ClientOk, HasChain, Open, ProcessEnvelope, OpensFirst, Acquainted, Step, RoomDelivery.Session.MessageAt;
    var ss := SessionOf(a, room);
    ArrivesFirst(a, b, room, nonce, i, text, sealNonce);
    MadeFor(a.me, room, a.rooms[room], b.me.username, nonce);
    PayloadRoundTrip(ss, i, text, sealNonce);
    var env := MakeEnvelope(a.me, room, a.rooms[room], b.me.username, nonce);
    ForgettingReopens(ProcessEnvelope(b, env).0, env.value, ss.ck0, PayloadOf(ss.MessageAt(i, text, sealNonce)), op);
  }
}
