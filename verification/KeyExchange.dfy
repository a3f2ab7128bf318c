/** Exactly what each step of the key exchange sends, records and remembers. */
module KeyExchange {
  import opened Prelude
  import opened Sodium
  import opened SigningInputs
  import opened Ratchet
  import opened GroupManager
  import opened GroupInvariant
  import opened GroupRuns
  import opened GroupTrust
  import opened GroupDelivery
  import opened Replay
  import EpochProtocol
  import RoomCrypto
  import Trust = TrustStore

  // ---- who is sent our key ---------------------------------------------------------------

  predicate Usable(me: Self, m: string) {
    m in me.keys && IsKeyText(me.keys[m])
  }

  /** Someone else, not served yet, whose box key we can use. */
  predicate Due(me: Self, st: RoomState, m: string) {
    m != me.username && m !in st.distributed && Usable(me, m)
  }

  lemma {:induction false} OfferAllExactly(me: Self, room: string, st: RoomState, members: seq<string>,
                                           nonce: Nonce, m: string)
    requires OwnOk(st) && st.own.Some?
    ensures var (st', out) := OfferAll(me, room, st, members, nonce);
      && (m in RecipientsIn(out, room) <==> m in members && Due(me, st, m))
      && (m in st'.distributed <==> m in st.distributed || m in RecipientsIn(out, room))
    decreases |members|
  {
    hide MakeEnvelope, RecipientsIn;
    if members == [] {
      NoRecipients(room);
    } else {
      var n := |members| - 1;
      OfferAllExactly(me, room, st, members[..n], nonce, m);
      OfferAllKeeps(me, room, st, members[..n], nonce);
      var (st1, out1) := OfferAll(me, room, st, members[..n], nonce);
      var out2 := Offer(me, room, st1, members[n], nonce).1;
      MadeFor(me, room, st1, members[n], nonce);
      RecipientsConcat(out1, out2, room);
      NoRecipients(room);
      if out2 != [] {
        OneRecipient(out2[0], room);
      }
      assert members == members[..n] + [members[n]];
      OfferAllRemembers(me, room, st, members[..n], nonce, members[n]);
    }
  }

  lemma {:induction false} OfferAllRemembers(me: Self, room: string, st: RoomState, members: seq<string>,
                                             nonce: Nonce, m: string)
    requires OwnOk(st) && st.own.Some?
    ensures m in OfferAll(me, room, st, members, nonce).0.distributed
       <==> m in st.distributed || (m in members && Due(me, st, m))
    decreases |members|
  {
    hide MakeEnvelope;
    if members != [] {
      var n := |members| - 1;
      OfferAllRemembers(me, room, st, members[..n], nonce, m);
      OfferAllKeeps(me, room, st, members[..n], nonce);
      MadeFor(me, room, OfferAll(me, room, st, members[..n], nonce).0, members[n], nonce);
      assert members == members[..n] + [members[n]];
    }
  }

  lemma {:induction false} NoRecipients(room: string)
    ensures RecipientsIn([], room) == []
  {
  }

  lemma {:induction false} OneRecipient(e: Envelope, room: string)
    ensures RecipientsIn([e], room) == if e.room == room then [e.recipient] else []
  {
    assert [e][..0] == [];
    NoRecipients(room);
  }

  /** Each recipient occurs once, so membership in the list is a count. */
  lemma {:induction false} CountIsMembership(before: set<string>, envs: seq<Envelope>, room: string,
                                             after: set<string>, m: string)
    requires Serves(before, envs, room, after)
    ensures multiset(RecipientsIn(envs, room))[m] == if m in RecipientsIn(envs, room) then 1 else 0
  {
    if m in RecipientsIn(envs, room) {
      OccursOnce(RecipientsIn(envs, room), m);
    }
  }

  /** The sync is to another epoch or another member list than the room has, or finds no own key. */
  predicate Renews(c: Client, op: Op)
    requires op.SyncOp?
  {
    || op.room !in c.rooms || c.rooms[op.room].own.None?
    || c.rooms[op.room].epoch != op.epoch || c.rooms[op.room].members != op.members
  }

  /**
   A sync that renews the room sends the key at once, and exactly once, to every other member with a
   usable cached key; a sync that changes nothing sends nothing.
   */
  lemma {:induction false} SyncSendsExactly(c: Client, op: Op, m: string)
    requires ClientOk(c) && op.SyncOp? && Enabled(c, op)
    ensures multiset(RecipientsIn(Step(c, op).1, op.room))[m]
         == if Renews(c, op) && m in op.members && m != c.me.username && Usable(c.me, m) then 1 else 0
    ensures !Renews(c, op) ==> Step(c, op).1 == []
    ensures forall e | e in Step(c, op).1 :: e.room == op.room
  {
    hide OfferAll, Prune, Serves, RecipientsIn, ListOk;
    var st := RoomOf(c, op.room);
    assert op.room in c.rooms ==> RoomOk(st);
    var before := SyncedBeforePruning(st, op.epoch, op.members, op.generated);
    var mid := Synced(st, op.epoch, op.members, op.generated);
    PruneKeepsRest(before);
    if Renews(c, op) {
      OfferAllServes(c.me, op.room, mid, op.members, op.nonce);
      OfferAllExactly(c.me, op.room, mid, op.members, op.nonce, m);
      var (st', out) := OfferAll(c.me, op.room, mid, op.members, op.nonce);
      CountIsMembership(mid.distributed, out, op.room, st'.distributed, m);
    } else {
      NoRecipients(op.room);
    }
  }

  /** On a rotation every envelope carries the new key at the start of its chain. */
  lemma {:induction false} RotationHandsOverStart(c: Client, op: Op, e: Envelope)
    requires ClientOk(c) && op.SyncOp? && Enabled(c, op) && e in Step(c, op).1
    requires op.room !in c.rooms || c.rooms[op.room].own.None? || c.rooms[op.room].epoch != op.epoch
    ensures EpochProtocol.Boxed(e) && EpochProtocol.BoxedKey(e) == op.generated.chain
    ensures e.room == op.room && e.epoch == op.epoch && e.from == c.me.username && e.recipient in op.members
    ensures op.room in Step(c, op).0.rooms && Step(c, op).0.rooms[op.room].own == Some(op.generated)
  {
    hide SyncRoom, ListOk;
    assert op.room in c.rooms ==> RoomOk(c.rooms[op.room]);
    EpochProtocol.SyncMakes(c, op.room, op.epoch, op.members, op.generated, op.nonce);
    SyncSendsExactly(c, op, "");
  }

  // ---- passes over the rooms -------------------------------------------------------------

  lemma {:induction false} PassPerRoom(c: Client, order: seq<string>, user: Option<string>, nonce: Nonce, r: string)
    requires r in c.rooms && forall x | x in order :: x in c.rooms
    requires forall i, j | 0 <= i < j < |order| :: order[i] != order[j]
    ensures var (c', out) := PassOver(c, order, user, nonce);
      var (st, own) := RoomPass(c.me, r, c.rooms[r], user, nonce);
      && r in c'.rooms
      && (r in order ==> c'.rooms[r] == st && RecipientsIn(out, r) == RecipientsIn(own, r))
      && (r !in order ==> c'.rooms[r] == c.rooms[r] && RecipientsIn(out, r) == [])
    decreases |order|
  {
    hide RoomPass, RecipientsIn;
    NoRecipients(r);
    if order != [] {
      var n := |order| - 1;
      PassPerRoom(c, order[..n], user, nonce, r);
      assert order == order[..n] + [order[n]] && order[n] !in order[..n];
      var (c1, out1) := PassOver(c, order[..n], user, nonce);
      PassPerRoom(c, order[..n], user, nonce, order[n]);
      var out2 := RoomPass(c.me, order[n], c1.rooms[order[n]], user, nonce).1;
      RecipientsConcat(out1, out2, r);
      if order[n] == r {
        assert [] + RecipientsIn(out2, r) == RecipientsIn(out2, r);
      } else {
        RoomPassServes(c.me, order[n], c1.rooms[order[n]], user, nonce);
        OthersOnly(out2, order[n], r);
        assert RecipientsIn(out1, r) + [] == RecipientsIn(out1, r);
      }
    }
  }

  lemma {:induction false} OthersOnly(envs: seq<Envelope>, room: string, r: string)
    requires room != r && forall e | e in envs :: e.room == room
    ensures RecipientsIn(envs, r) == []
    decreases |envs|
  {
    if envs != [] {
      var n := |envs| - 1;
      assert envs[n] in envs;
      forall e | e in envs[..n] ensures e.room == room {
        assert e in envs;
      }
      OthersOnly(envs[..n], room, r);
    }
  }

  /**
   When the key of `user` becomes available, each room with an own key that lists the user and has
   not served it sends exactly one envelope, to the user, and records that; the other rooms do nothing.
   */
  lemma {:induction false} KeyReleasesExactly(c: Client, order: seq<string>, user: string, nonce: Nonce, r: string)
    requires ClientOk(c) && IsOrder(c, order) && r in c.rooms
    ensures var (c', out) := PassOver(c, order, Some(user), nonce); var st := c.rooms[r];
      var due := st.own.Some? && user in st.members && user !in st.distributed && Usable(c.me, user);
      && r in c'.rooms && RecipientsIn(out, r) == (if due then [user] else [])
      && c'.rooms[r] == st.(distributed := st.distributed + if due then {user} else {})
  {
    hide PassOver, MakeEnvelope, ListOk, RecipientsIn;
    PassPerRoom(c, order, Some(user), nonce, r);
    assert RoomOk(c.rooms[r]);
    MadeFor(c.me, r, c.rooms[r], user, nonce);
    NoRecipients(r);
    var out := RoomPass(c.me, r, c.rooms[r], Some(user), nonce).1;
    if out != [] {
      OneRecipient(out[0], r);
    }
    assert c.rooms[r].distributed + {} == c.rooms[r].distributed;
  }

  /** A tick sends the key to exactly the members that are due, once each, and records exactly them. */
  lemma {:induction false} TickSendsExactly(c: Client, order: seq<string>, nonce: Nonce, r: string, m: string)
    requires ClientOk(c) && IsOrder(c, order) && r in c.rooms
    ensures var (c', out) := PassOver(c, order, None, nonce); var st := c.rooms[r];
      var due := st.own.Some? && m in st.members && Due(c.me, st, m);
      && r in c'.rooms && multiset(RecipientsIn(out, r))[m] == (if due then 1 else 0)
      && (m in c'.rooms[r].distributed <==> m in st.distributed || due)
      && c'.rooms[r] == st.(distributed := c'.rooms[r].distributed)
  {
    hide PassOver, OfferAll, ListOk, RecipientsIn, Serves;
    PassPerRoom(c, order, None, nonce, r);
    var st := c.rooms[r];
    assert RoomOk(st);
    NoRecipients(r);
    OfferAllKeeps(c.me, r, st, st.members, nonce);
    if st.own.Some? {
      OfferAllExactly(c.me, r, st, st.members, nonce, m);
      OfferAllServes(c.me, r, st, st.members, nonce);
      var (st', out) := OfferAll(c.me, r, st, st.members, nonce);
      CountIsMembership(st.distributed, out, r, st'.distributed, m);
    }
  }

  /** A key response that passes the trust check releases what waited for the key; any other releases nothing. */
  lemma {:induction false} KeyResponseExactly(c: Client, op: Op, r: string)
    requires ClientOk(c) && op.KeyOp? && Enabled(c, op) && r in c.rooms
    ensures var taken := op.user != "" && op.key != "" && Trust.See(c.trust, op.user, op.key, "").1 != Trust.CHANGED;
      var st := c.rooms[r];
      var due := taken && st.own.Some? && op.user in st.members && op.user !in st.distributed && IsKeyText(op.key);
      && RecipientsIn(Step(c, op).1, r) == (if due then [op.user] else [])
      && r in Step(c, op).0.rooms
      && Step(c, op).0.rooms[r] == st.(distributed := st.distributed + if due then {op.user} else {})
  {
    hide PassOver, Trust.See, RoomOk, RecipientsIn;
    NoRecipients(r);
    assert c.rooms[r].distributed + {} == c.rooms[r].distributed;
    var seen := c.(trust := Trust.See(c.trust, op.user, op.key, "").0);
    KeyReleasesExactly(CacheKey(seen, op.user, op.key), op.order, op.user, op.nonce, r);
  }

  // ---- which box keys are remembered -----------------------------------------------------

  /** The box key that an operation makes the client remember, if any. */
  ghost function Remembers(c: Client, op: Op): Option<(string, string)> {
    match op
    case KeyOp(user, key, _, _) =>
      if Enabled(c, op) && user != "" && key != "" && Trust.See(c.trust, user, key, "").1 != Trust.CHANGED
      then Some((user, key)) else None
    case DirectOp(user, key, decrypted) =>
      if decrypted && user != "" && key != "" && Trust.See(c.trust, user, key, "").1 != Trust.CHANGED
      then Some((user, key)) else None
    case EnvelopeOp(Some(env)) => if Adds(c, env) then Some((env.from, env.wrapped.senderX)) else None
    case _ => None
  }

  /** Keys are remembered from accepted key responses, decrypted direct messages and chain-starting envelopes only. */
  lemma {:induction false} KeysRememberedExactly(c: Client, op: Op)
    ensures Step(c, op).0.me
         == c.me.(keys := if Remembers(c, op).None? then c.me.keys
                          else c.me.keys[Remembers(c, op).value.0 := Remembers(c, op).value.1])
  {
    hide PassOver, Sync, RoomCrypto.Open, RoomCrypto.Seal, Trust.See, UnwrapFor, IllFormed, AddChain;
    if Enabled(c, op) {
      match op
      case KeyOp(user, key, order, nonce) =>
        var trust := Trust.See(c.trust, user, key, "").0;
        EpochProtocol.PassOverMakes(CacheKey(c.(trust := trust), user, key), order, Some(user), nonce);
      case TickOp(order, nonce) => EpochProtocol.PassOverMakes(c, order, None, nonce);
      case EnvelopeOp(frame) =>
        if frame.Some? {
          FoundExactly(c, frame.value);
        }
      case _ =>
    }
  }

  lemma {:induction false} FoundExactly(c: Client, env: Envelope)
    ensures var st := RoomOf(c, env.room); var chains := if env.from in st.peers then st.peers[env.from] else [];
      EntryOf(env).In(c) <==> FindChain(chains, env.epoch, env.keyId) < |chains|
  {
  }

  // ---- what an envelope is answered ------------------------------------------------------

  /** The number of characters of a text field. */
  function Characters<T>(f: Field<T>, size: nat): nat {
    if f.Encoded? then B64Length(size) else |f.text|
  }

  function BoxBytes(box: BoxText<RoomCrypto.SenderKeyEnvelope>): nat {
    if box.BoxSealed? then box.inner.Size() + TAG_BYTES else |box.bytes|
  }

  predicate Malformed(me: Self, env: Envelope) {
    var w := env.wrapped;
    || env.from == "" || env.from == me.username || env.recipient != me.username || env.epoch == 0
    || !IsValidKeyId(env.keyId) || w.senderX == "" || w.senderEd == ""
    || Characters(w.nonce, if w.nonce.Encoded? then |w.nonce.value| else 0) == 0
    || Characters(w.box, if w.box.Encoded? then BoxBytes(w.box.value) else 0) == 0
    || Characters(w.signature, if w.signature.Encoded? then w.signature.value.Size() else 0) == 0
  }

  lemma {:induction false} MalformedIsIllFormed(me: Self, env: Envelope)
    ensures IllFormed(me, env) <==> Malformed(me, env)
  {
  }

  /**
   An envelope is answered INVALID exactly when a header field or a text is missing or wrong, or its
   keys are trusted and it does not unwrap; KEY_CHANGED exactly when it is well formed and its keys
   conflict with the pin. It touches the pins only if well formed, and the rooms only if it adds a chain.
   */
  lemma {:induction false} EnvelopeAnsweredExactly(c: Client, env: Envelope)
    ensures var (c', status) := ProcessEnvelope(c, Some(env));
      var changed := Trust.See(c.trust, env.from, env.wrapped.senderX, env.wrapped.senderEd).1 == Trust.CHANGED;
      && (status == INVALID <==> Malformed(c.me, env) || (!changed && UnwrapFor(c.me, env).None?))
      && (status == KEY_CHANGED <==> !Malformed(c.me, env) && changed)
      && c'.trust == (if Malformed(c.me, env) then c.trust
                      else Trust.See(c.trust, env.from, env.wrapped.senderX, env.wrapped.senderEd).0)
      && (!Adds(c, env) ==> c'.rooms == c.rooms)
      && (Adds(c, env) ==> status == OK && EntryOf(env).In(c') && c'.rooms.Keys == c.rooms.Keys + {env.room})
  {
    hide Trust.See, UnwrapFor, IllFormed, AddChain, FindChain, Malformed;
    MalformedIsIllFormed(c.me, env);
    FoundExactly(c, env);
    if Adds(c, env) {
      AddedIsFound(c, env);
    }
  }

  lemma {:induction false} AddedIsFound(c: Client, env: Envelope)
    requires Adds(c, env)
    ensures EntryOf(env).In(ProcessEnvelope(c, Some(env)).0)
  {
    hide Trust.See, UnwrapFor, IllFormed;
    FoundExactly(c, env);
    var st := RoomOf(c, env.room);
    var chains := if env.from in st.peers then st.peers[env.from] else [];
    var kept := Newest(chains, MAX_CHAINS_PER_PEER - 1);
    var all := ProcessEnvelope(c, Some(env)).0.rooms[env.room].peers[env.from];
    assert all[|kept|].epoch == env.epoch && all[|kept|].keyId == env.keyId;
  }

  /** A frame that lacks a field is INVALID and changes nothing. */
  lemma {:induction false} MissingFieldIsInvalid(c: Client)
    ensures ProcessEnvelope(c, None) == (c, INVALID)
  {
  }

  // ---- the exchange is mutual ------------------------------------------------------------

  /** Having accepted the envelope of `a`, `b` can serve `a`: its next tick sends `a` the key of every room due. */
  lemma {:induction false} AcceptedIsAnswered(a: Client, b: Client, room: string, nonce: Nonce, order: seq<string>,
                                              nonce': Nonce, r: string)
    requires ClientOk(b) && Acquainted(a, b) && Keyed(a, room)
    requires var ss := SessionOf(a, room); !Entry(room, ss.sender, ss.epoch, ss.keyId).In(b)
    requires var b1 := ProcessEnvelope(b, MakeEnvelope(a.me, room, a.rooms[room], b.me.username, nonce)).0;
      && IsOrder(b1, order) && r in b1.rooms && b1.rooms[r].own.Some?
      && a.me.username in b1.rooms[r].members && a.me.username !in b1.rooms[r].distributed
    ensures var b1 := ProcessEnvelope(b, MakeEnvelope(a.me, room, a.rooms[room], b.me.username, nonce)).0;
      && a.me.username in b1.me.keys && b1.me.keys[a.me.username] == a.me.box.public
      && multiset(RecipientsIn(PassOver(b1, order, None, nonce').1, r))[a.me.username] == 1
  {
    hide ClientOk, IsOrder, PassOver, RecipientsIn, MakeEnvelope, ProcessEnvelope, Follows, HasChain, Trust.See;
    EnvelopeAccepted(a, b, room, nonce);
    MadeFor(a.me, room, a.rooms[room], b.me.username, nonce);
    var env := MakeEnvelope(a.me, room, a.rooms[room], b.me.username, nonce);
    var b1 := ProcessEnvelope(b, env).0;
    EnvelopeOk(b, env);
    EnvelopeContents(a.me, room, a.rooms[room], b.me.username, nonce);
    EnvelopeAnsweredExactly(b, env.value);
    EnvelopeStep(b, env.value);
    KeysRememberedExactly(b, EnvelopeOp(env));
    TickSendsExactly(b1, order, nonce', r, a.me.username);
  }

  /** An envelope boxes our chain key, room, epoch, key id and both our keys for the member, and signs all of it. */
  lemma {:induction false} EnvelopeContents(me: Self, room: string, st: RoomState, m: string, nonce: Nonce)
    requires MakeEnvelope(me, room, st, m, nonce).Some?
    ensures var w := MakeEnvelope(me, room, st, m, nonce).value.wrapped; var own := st.own.value;
      && w.senderX == me.box.public && w.senderEd == me.signer.public && w.nonce.Encoded? && w.nonce.value == nonce
      && w.box == Encoded(BoxSealed(nonce, me.box.public, me.keys[m],
                                    RoomCrypto.SenderKeyEnvelope(room, st.ownEpoch, own.keyId, own.chain, me.box.public,
                                                                 me.signer.public)))
      && w.signature == Encoded(Signed(me.signer.public, RoomCrypto.ForEnvelope(room, me.username, m, st.ownEpoch,
                                                                                own.keyId, w.nonce, w.box)))
  {
  }

  // ---- opening and the wire index --------------------------------------------------------

  /** Opening at the client, case by case: any missing piece refuses, and otherwise the chain decides. */
  lemma {:induction false} OpenAnsweredExactly(c: Client, room: string, sender: string, p: Payload)
    ensures var e := Entry(room, sender, p.epoch, p.keyId);
      Open(c, room, sender, Some(p)).1
      == if p.epoch != 0 && p.index >= 0 && IsValidKeyId(p.keyId) && e.In(c)
            && sender in c.trust.pins.users && IsKeyText(c.trust.pins.users[sender].ed)
         then RoomCrypto.Open(e.Chain(c), MessageOf(p), room, sender, c.trust.pins.users[sender].ed).1
         else None
    ensures Open(c, room, sender, None) == (c, None)
  {
    hide RoomCrypto.Open, FindChain;
  }

  /** Two wire indices are the same chain index exactly when they differ by a multiple of 2^32. */
  lemma {:induction false} NarrowExactly(i: nat, j: nat)
    ensures Narrow(i) == Narrow(j) <==> (i - j) % 0x1_0000_0000 == 0
    ensures i < 0x1_0000_0000 ==> Narrow(i) == i
  {
  }

  // ---- what stays untouched --------------------------------------------------------------

  /** A new chain goes to the end of its sender's list, at its start, and pushes out the oldest of six. */
  lemma {:induction false} AddsLast(c: Client, env: Envelope)
    requires ClientOk(c) && Adds(c, env)
    ensures var st := RoomOf(c, env.room); var chains := if env.from in st.peers then st.peers[env.from] else [];
      var added := PeerChain(env.epoch, env.keyId, Inbound(UnwrapFor(c.me, env).value.chainKey, 0, map[]));
      var list := (if |chains| == 6 then chains[1..] else chains) + [added];
      ProcessEnvelope(c, Some(env)).0.rooms == c.rooms[env.room := st.(peers := st.peers[env.from := list])]
  {
    hide Trust.See, UnwrapFor, IllFormed, FindChain, ChainsOk;
    FoundExactly(c, env);
    assert env.room in c.rooms ==> RoomOk(c.rooms[env.room]);
  }

  /** Opening changes at most one chain, and neither pins nor keys nor anything else of any room. */
  lemma {:induction false} OpenChangesOneChain(c: Client, room: string, sender: string, payload: Option<Payload>)
    ensures var (c', got) := Open(c, room, sender, payload);
      && c'.me == c.me && c'.trust == c.trust && (got.None? ==> c' == c)
      && (got.Some? ==>
            && payload.Some? && payload.value.index >= 0 && sender in c.trust.pins.users
            && HasChain(c, room, sender, payload.value.epoch, payload.value.keyId)
            && (var chains := c.rooms[room].peers[sender];
                var i := FindChain(chains, payload.value.epoch, payload.value.keyId);
                var k := RoomCrypto.Open(chains[i].chain, MessageOf(payload.value), room, sender,
                                         c.trust.pins.users[sender].ed).0;
                var list := chains[i := PeerChain(chains[i].epoch, chains[i].keyId, k)];
                c'.rooms == c.rooms[room := c.rooms[room].(peers := c.rooms[room].peers[sender := list])]))
  {
    hide RoomCrypto.Open, FindChain;
  }

  /** Sealing moves the room's own key one position on, and changes nothing else. */
  lemma {:induction false} SealChangesOwnKey(c: Client, room: string, plaintext: Bytes, nonce: Nonce)
    requires ClientOk(c)
    ensures var (c', sealed) := Seal(c, room, plaintext, nonce);
      && (sealed.Some? <==> room in c.rooms && c.rooms[room].own.Some?)
      && (sealed.None? ==> c' == c)
      && (sealed.Some? ==>
            var own := c.rooms[room].own.value;
            c' == c.(rooms := c.rooms[room := c.rooms[room].(own :=
                   Some(Outbound(ChainAt(own.chain, 1), (own.index + 1) % 0x1_0000_0000, own.keyId)))]))
  {
    hide ListOk;
    if room in c.rooms {
      assert RoomOk(c.rooms[room]);
      if c.rooms[room].own.Some? {
        assert ChainAt(c.rooms[room].own.value.chain, 0) == c.rooms[room].own.value.chain;
      }
    }
  }

  /** The operation is about another room, or about no room. */
  predicate Elsewhere(op: Op, r: string) {
    match op
    case SyncOp(room, _, _, _, _) => room != r
    case SealOp(room, _, _) => room != r
    case OpenOp(room, _, _) => room != r
    case LeaveOp(room) => room != r
    case EnvelopeOp(frame) => frame.Some? ==> frame.value.room != r
    case DirectOp(_, _, _) => true
    case TrustOp(_) => true
    case KeyOp(_, _, _, _) => false
    case TickOp(_, _) => false
  }

  /** Rooms do not disturb each other, and leaving a room removes that room and nothing else. */
  lemma {:induction false} RoomsAreIndependent(c: Client, op: Op, r: string)
    requires Elsewhere(op, r)
    ensures r in Step(c, op).0.rooms <==> r in c.rooms
    ensures r in c.rooms ==> Step(c, op).0.rooms[r] == c.rooms[r]
    ensures Step(c, LeaveOp(r)).0 == c.(rooms := Step(c, LeaveOp(r)).0.rooms) && r !in Step(c, LeaveOp(r)).0.rooms
  {
    hide Sync, RoomCrypto.Open, RoomCrypto.Seal, Trust.See, Trust.Step, UnwrapFor, IllFormed, AddChain, FindChain;
  }
}
