/**
 The client's room-key orchestration: rotation on epoch change, distribution bookkeeping, the
 peers' chains, sealing and opening. Each operation is a function on values; the class below
 performs it in place with the source's loops and is proved to compute that function.
 */
module GroupManager {
  import opened Prelude
  import opened Sodium
  import opened SigningInputs
  import opened Ratchet
  import RoomCrypto
  import Trust = TrustStore

  type Nonce = RoomCrypto.Nonce
  type SealedMessage = RoomCrypto.SealedMessage
  type WrappedEnvelope = RoomCrypto.WrappedEnvelope

  const MAX_CHAINS_PER_PEER: nat := 6

  datatype PeerChain = PeerChain(epoch: Uint64, keyId: string, chain: Inbound)

  datatype RoomState = RoomState(epoch: Uint64, members: seq<string>, own: Option<Outbound>, ownEpoch: Uint64,
                                 distributed: set<string>, peers: map<string, seq<PeerChain>>)

  const EMPTY_ROOM := RoomState(0, [], None, 0, {}, map[])

  /** Our name, our identity secrets, and the box keys of others that we have cached. */
  datatype Self = Self(username: string, box: BoxSecret, signer: SignSecret, keys: map<string, string>)

  datatype Client = Client(me: Self, trust: Trust.Session, rooms: map<string, RoomState>)

  /** A ROOM_KEY frame. */
  datatype Envelope = Envelope(from: string, room: string, recipient: string, epoch: Uint64, keyId: string,
                               wrapped: WrappedEnvelope)

  /** The payload of an ENCRYPTED_MESSAGE frame; the index is signed and 64 bits wide on the wire. */
  datatype Payload = Payload(epoch: Uint64, keyId: string, index: int, nonce: Field<Bytes>,
                             ciphertext: Field<AeadText>, signature: RoomCrypto.SignatureField)

  datatype EnvelopeStatus = OK | KEY_CHANGED | INVALID

  // ---- distribution ----------------------------------------------------------------------

  /** One envelope for `recipient`, if there is a key to send and a usable box key to send it under. */
  function MakeEnvelope(me: Self, room: string, st: RoomState, recipient: string, nonce: Nonce): Option<Envelope> {
    if st.own.None? || recipient !in me.keys || !IsKeyText(me.keys[recipient]) then None
    else
      var own := st.own.value;
      match RoomCrypto.Wrap(room, me.username, recipient, st.ownEpoch, own.keyId, own.chain, me.box, me.signer,
                            me.keys[recipient], nonce)
      case None => None
      case Some(w) => Some(Envelope(me.username, room, recipient, st.ownEpoch, own.keyId, w))
  }

  /** Offer the key to one member, unless it is ourselves or was served before. */
  function Offer(me: Self, room: string, st: RoomState, member: string, nonce: Nonce): (RoomState, seq<Envelope>) {
    if member == me.username || member in st.distributed then (st, [])
    else
      match MakeEnvelope(me, room, st, member, nonce)
      case None => (st, [])
      case Some(e) => (st.(distributed := st.distributed + {member}), [e])
  }

  function OfferAll(me: Self, room: string, st: RoomState, members: seq<string>, nonce: Nonce)
    : (RoomState, seq<Envelope>)
  {
    if members == [] then (st, [])
    else
      var n := |members| - 1;
      var (st1, out1) := OfferAll(me, room, st, members[..n], nonce);
      var (st2, out2) := Offer(me, room, st1, members[n], nonce);
      (st2, out1 + out2)
  }

  function Pending(me: Self, room: string, st: RoomState, nonce: Nonce): (RoomState, seq<Envelope>) {
    OfferAll(me, room, st, st.members, nonce)
  }

  // ---- pruning ---------------------------------------------------------------------------

  /** The test `epoch > c.epoch + 2`, negated; the sum is a `uint64_t` and wraps. */
  predicate Survives(epoch: Uint64, c: PeerChain) {
    epoch <= (c.epoch + 2) % TWO_64
  }

  function Surviving(epoch: Uint64, chains: seq<PeerChain>): seq<PeerChain> {
    if chains == [] then []
    else
      var n := |chains| - 1;
      Surviving(epoch, chains[..n]) + (if Survives(epoch, chains[n]) then [chains[n]] else [])
  }

  /** Drop the oldest entries until at most `cap` remain. */
  function Newest(chains: seq<PeerChain>, cap: nat): seq<PeerChain> {
    if |chains| <= cap then chains else chains[|chains| - cap..]
  }

  function PrunedChains(epoch: Uint64, chains: seq<PeerChain>): seq<PeerChain> {
    Newest(Surviving(epoch, chains), MAX_CHAINS_PER_PEER)
  }

  function Prune(st: RoomState): RoomState {
    st.(peers := map u | u in st.peers && PrunedChains(st.epoch, st.peers[u]) != []
                     :: PrunedChains(st.epoch, st.peers[u]))
  }

  // ---- membership sync -------------------------------------------------------------------

  predicate Rotates(st: RoomState, epoch: Uint64) {
    st.own.None? || st.ownEpoch != epoch
  }

  function SyncedBeforePruning(st: RoomState, epoch: Uint64, members: seq<string>, generated: Outbound): RoomState {
    var rotated := Rotates(st, epoch);
    RoomState(
      epoch, members,
      if rotated then Some(generated) else st.own,
      if rotated then epoch else st.ownEpoch,
      if rotated || st.members != members then {} else st.distributed,
      st.peers)
  }

  function Synced(st: RoomState, epoch: Uint64, members: seq<string>, generated: Outbound): RoomState {
    Prune(SyncedBeforePruning(st, epoch, members, generated))
  }

  /** `generated` is the random key that a rotation would draw. */
  function Sync(me: Self, room: string, st: RoomState, epoch: Uint64, members: seq<string>, generated: Outbound,
                nonce: Nonce): (RoomState, seq<Envelope>)
  {
    var st' := Synced(st, epoch, members, generated);
    if !Rotates(st, epoch) && st.members == members then (st', [])
    else Pending(me, room, st', nonce)
  }

  function RoomOf(c: Client, room: string): RoomState {
    if room in c.rooms then c.rooms[room] else EMPTY_ROOM
  }

  function SyncRoom(c: Client, room: string, epoch: Uint64, members: seq<string>, generated: Outbound, nonce: Nonce)
    : (Client, seq<Envelope>)
  {
    var (st, out) := Sync(c.me, room, RoomOf(c, room), epoch, members, generated, nonce);
    (c.(rooms := c.rooms[room := st]), out)
  }

  // ---- ticks and arriving keys -----------------------------------------------------------

  /** What one room contributes to a tick. */
  function TickRoom(me: Self, room: string, st: RoomState, nonce: Nonce): (RoomState, seq<Envelope>) {
    if st.own.None? then (st, []) else Pending(me, room, st, nonce)
  }

  /** What one room contributes when the key of `user` has become available. */
  function KeyRoom(me: Self, room: string, st: RoomState, user: string, nonce: Nonce): (RoomState, seq<Envelope>) {
    if st.own.None? || user !in st.members || user in st.distributed then (st, [])
    else
      match MakeEnvelope(me, room, st, user, nonce)
      case None => (st, [])
      case Some(e) => (st.(distributed := st.distributed + {user}), [e])
  }

  /** A pass over the rooms, in the iteration order `order` of the hash map; `user` is absent for a tick. */
  function RoomPass(me: Self, room: string, st: RoomState, user: Option<string>, nonce: Nonce)
    : (RoomState, seq<Envelope>)
  {
    if user.None? then TickRoom(me, room, st, nonce) else KeyRoom(me, room, st, user.value, nonce)
  }

  function PassOver(c: Client, order: seq<string>, user: Option<string>, nonce: Nonce): (Client, seq<Envelope>)
    requires forall r | r in order :: r in c.rooms
  {
    if order == [] then (c, [])
    else
      var n := |order| - 1;
      var (c1, out1) := PassOver(c, order[..n], user, nonce);
      var (st, out2) := RoomPass(c.me, order[n], RoomOf(c1, order[n]), user, nonce);
      (c1.(rooms := c1.rooms[order[n] := st]), out1 + out2)
  }

  /** `order` lists every room once. */
  ghost predicate IsOrder(c: Client, order: seq<string>) {
    && (forall r :: r in order <==> r in c.rooms)
    && (forall i, j | 0 <= i < j < |order| :: order[i] != order[j])
  }

  function CacheKey(c: Client, user: string, key: string): Client {
    c.(me := c.me.(keys := c.me.keys[user := key]))
  }

  function LeaveRoom(c: Client, room: string): Client {
    c.(rooms := c.rooms - {room})
  }

  // ---- inbound envelopes -----------------------------------------------------------------

  /** Position of the first chain with this epoch and key id, or the length of the list. */
  function FindChain(chains: seq<PeerChain>, epoch: Uint64, keyId: string): (i: nat)
    ensures i <= |chains|
    ensures i < |chains| ==> chains[i].epoch == epoch && chains[i].keyId == keyId
    ensures forall j | 0 <= j < i :: chains[j].epoch != epoch || chains[j].keyId != keyId
  {
    if chains == [] then 0
    else if chains[0].epoch == epoch && chains[0].keyId == keyId then 0
    else 1 + FindChain(chains[1..], epoch, keyId)
  }

  function AddChain(chains: seq<PeerChain>, epoch: Uint64, keyId: string, chainKey: Secret): seq<PeerChain> {
    if FindChain(chains, epoch, keyId) < |chains| then chains
    else Newest(chains, MAX_CHAINS_PER_PEER - 1) + [PeerChain(epoch, keyId, FreshInbound(chainKey))]
  }

  predicate HasEmptyField(e: Envelope) {
    || e.wrapped.nonce == OtherText("") || e.wrapped.nonce == Encoded([])
    || e.wrapped.box == OtherText("") || e.wrapped.box == Encoded(BoxForged([]))
    || e.wrapped.signature == OtherText("") || e.wrapped.signature == Encoded(ForgedSignature([]))
    || e.wrapped.senderX == "" || e.wrapped.senderEd == ""
  }

  predicate IllFormed(me: Self, e: Envelope) {
    || e.from == "" || e.from == me.username || e.recipient != me.username
    || e.epoch == 0 || !IsValidKeyId(e.keyId) || HasEmptyField(e)
  }

  function UnwrapFor(me: Self, e: Envelope): Option<RoomCrypto.SenderKeyEnvelope> {
    RoomCrypto.Unwrap(e.room, e.from, me.username, e.epoch, e.keyId, e.wrapped, me.box,
                      e.wrapped.senderX, e.wrapped.senderEd)
  }

  /** No argument means that the frame lacked a field. */
  function ProcessEnvelope(c: Client, frame: Option<Envelope>): (Client, EnvelopeStatus) {
    if frame.None? || IllFormed(c.me, frame.value) then (c, INVALID)
    else
      var e := frame.value;
      var (trust, status) := Trust.See(c.trust, e.from, e.wrapped.senderX, e.wrapped.senderEd);
      var c1 := c.(trust := trust);
      if status == Trust.CHANGED then (c1, KEY_CHANGED)
      else
        match UnwrapFor(c.me, e)
        case None => (c1, INVALID)
        case Some(inner) =>
          var st := RoomOf(c, e.room);
          var chains := if e.from in st.peers then st.peers[e.from] else [];
          if FindChain(chains, e.epoch, e.keyId) < |chains| then (c1, OK)
          else
            var st' := st.(peers := st.peers[e.from := AddChain(chains, e.epoch, e.keyId, inner.chainKey)]);
            (CacheKey(c1.(rooms := c.rooms[e.room := st']), e.from, e.wrapped.senderX), OK)
  }

  // ---- sealing and opening ---------------------------------------------------------------

  function Seal(c: Client, room: string, plaintext: Bytes, nonce: Nonce): (Client, Option<SealedMessage>) {
    if room !in c.rooms || c.rooms[room].own.None? then (c, None)
    else
      var st := c.rooms[room];
      if st.ownEpoch != st.epoch then (c, None)
      else
        var (own, sealed) :=
          RoomCrypto.Seal(st.own.value, st.epoch, room, c.me.username, plaintext, c.me.signer, nonce);
        if sealed.None? then (c, None)
        else (c.(rooms := c.rooms[room := st.(own := Some(own))]), sealed)
  }

  /** The narrowing cast from `int64_t` to `uint32_t`. */
  function Narrow(index: int): Uint32
    requires 0 <= index
  {
    index % TWO_32
  }

  function MessageOf(p: Payload): SealedMessage
    requires 0 <= p.index
  {
    RoomCrypto.SealedMessage(p.epoch, p.keyId, Narrow(p.index), p.nonce, p.ciphertext, p.signature)
  }

  predicate HasChain(c: Client, room: string, sender: string, epoch: Uint64, keyId: string) {
    && room in c.rooms && sender in c.rooms[room].peers
    && FindChain(c.rooms[room].peers[sender], epoch, keyId) < |c.rooms[room].peers[sender]|
  }

  function ChainOf(c: Client, room: string, sender: string, epoch: Uint64, keyId: string): Inbound
    requires HasChain(c, room, sender, epoch, keyId)
  {
    var chains := c.rooms[room].peers[sender];
    chains[FindChain(chains, epoch, keyId)].chain
  }

  function SetChain(c: Client, room: string, sender: string, epoch: Uint64, keyId: string, k: Inbound): Client
    requires HasChain(c, room, sender, epoch, keyId)
  {
    var st := c.rooms[room];
    var chains := st.peers[sender];
    var i := FindChain(chains, epoch, keyId);
    c.(rooms := c.rooms[room := st.(peers := st.peers[sender := chains[i := chains[i].(chain := k)]])])
  }

  function Open(c: Client, room: string, sender: string, payload: Option<Payload>): (Client, Option<Bytes>) {
    if payload.None? then (c, None)
    else
      var p := payload.value;
      if p.epoch == 0 || p.index < 0 || !IsValidKeyId(p.keyId) || !HasChain(c, room, sender, p.epoch, p.keyId)
         || sender !in c.trust.pins.users || !IsKeyText(c.trust.pins.users[sender].ed)
      then (c, None)
      else
        var (k, got) := RoomCrypto.Open(ChainOf(c, room, sender, p.epoch, p.keyId), MessageOf(p), room, sender,
                                        c.trust.pins.users[sender].ed);
        if got.None? then (c, None)
        else (SetChain(c, room, sender, p.epoch, p.keyId, k), got)
  }

  // ---- the operations in place -----------------------------------------------------------

  lemma {:induction false} OfferAllKeeps(me: Self, room: string, st: RoomState, members: seq<string>, nonce: Nonce)
    ensures var st' := OfferAll(me, room, st, members, nonce).0;
      st' == st.(distributed := st'.distributed)
  {
    if members != [] {
      OfferAllKeeps(me, room, st, members[..|members| - 1], nonce);
    }
  }

  lemma {:induction false} PassOverNone(c: Client, user: Option<string>, nonce: Nonce)
    ensures PassOver(c, [], user, nonce) == (c, [])
  {
  }

  lemma {:induction false} PassOverOneMore(c: Client, order: seq<string>, i: nat, user: Option<string>, nonce: Nonce)
    requires i < |order| && forall r | r in order :: r in c.rooms
    ensures var (c1, out1) := PassOver(c, order[..i], user, nonce);
      var (st, out2) := RoomPass(c.me, order[i], RoomOf(c1, order[i]), user, nonce);
      PassOver(c, order[..i + 1], user, nonce) == (c1.(rooms := c1.rooms[order[i] := st]), out1 + out2)
  {
    hide RoomPass;
    assert order[..i + 1][..i] == order[..i];
  }

  /** `std::remove_if` with the age test keeps the surviving chains in order. */
  method RemoveOld(epoch: Uint64, chains: seq<PeerChain>) returns (kept: seq<PeerChain>)
    ensures kept == Surviving(epoch, chains)
  {
    kept := [];
    for i := 0 to |chains|
      invariant kept == Surviving(epoch, chains[..i])
    {
      assert chains[..i + 1][..i] == chains[..i];
      if Survives(epoch, chains[i]) {
        kept := kept + [chains[i]];
      }
    }
    assert chains[..|chains|] == chains;
  }

  /** Erase from the front while the list is too long. */
  method DropOldest(chains: seq<PeerChain>, cap: nat) returns (kept: seq<PeerChain>)
    ensures kept == Newest(chains, cap)
  {
    kept := chains;
    while |kept| > cap
      invariant Newest(kept, cap) == Newest(chains, cap)
    {
      kept := kept[1..];
    }
  }

  class Manager {
    var me: Self
    const store: Trust.Store
    var changed: map<string, (string, string)>
    var rooms: map<string, RoomState>

    function State(): Client
      reads this, store
    {
      Client(me, Trust.Session(store.State(), changed), rooms)
    }

    constructor (c: Client)
      ensures State() == c
    {
      me, changed, rooms := c.me, c.trust.changed, c.rooms;
      store := new Trust.Store(c.trust.pins);
    }

    /** The trust check of every key that is shown; the candidate is recorded when it differs. */
    method CheckKey(user: string, x: string, ed: string) returns (status: Trust.TrustStatus)
      modifies this`changed, store
      ensures (Trust.Session(store.State(), changed), status)
           == Trust.See(Trust.Session(old(store.State()), old(changed)), user, x, ed)
    {
      status := store.Check(user, x, ed);
      if status == Trust.CHANGED {
        changed := changed[user := (x, ed)];
      }
    }

    /** `accept_peer_key`. */
    method AcceptPeerKey(user: string) returns (ok: bool)
      modifies this`changed, store
      ensures (Trust.Session(store.State(), changed), ok)
           == Trust.AcceptPeerKey(Trust.Session(old(store.State()), old(changed)), user)
    {
      if user !in changed {
        return false;
      }
      ok := store.Accept(user, changed[user].0, changed[user].1);
      if ok {
        changed := changed - {user};
      }
    }

    /** `mark_peer_verified`. */
    method MarkPeerVerified(user: string, verified: bool) returns (ok: bool)
      modifies store
      ensures (store.State(), ok) == Trust.MarkVerified(old(store.State()), user, verified)
    {
      ok := store.Mark(user, verified);
    }

    method PendingEnvelopes(room: string, nonce: Nonce) returns (out: seq<Envelope>)
      requires room in rooms
      modifies this`rooms
      ensures var (st, envelopes) := Pending(me, room, old(rooms)[room], nonce);
        out == envelopes && rooms == old(rooms)[room := st]
    {
      hide MakeEnvelope;
      var st := rooms[room];
      var members := st.members;
      out := [];
      for i := 0 to |members|
        invariant (st, out) == OfferAll(me, room, old(rooms)[room], members[..i], nonce)
        invariant rooms == old(rooms)
      {
        assert members[..i + 1][..i] == members[..i];
        assert out + [] == out;
        var member := members[i];
        if member == me.username || member in st.distributed {
          continue;
        }
        var env := MakeEnvelope(me, room, st, member, nonce);
        if env.Some? {
          st := st.(distributed := st.distributed + {member});
          out := out + [env.value];
        }
      }
      assert members[..|members|] == members;
      rooms := rooms[room := st];
    }

    /** Visit the peers in any order, prune each list and erase the ones that become empty. */
    method PrunePeerChains(st: RoomState) returns (st': RoomState)
      ensures st' == Prune(st)
    {
      hide PrunedChains;
      var todo := st.peers.Keys;
      var peers := st.peers;
      while todo != {}
        invariant todo <= st.peers.Keys
        invariant forall u | u in peers :: u in st.peers
        invariant forall u | u in todo :: u in peers && peers[u] == st.peers[u]
        invariant forall u | u in st.peers && u !in todo ::
                    (u in peers <==> PrunedChains(st.epoch, st.peers[u]) != [])
                    && (u in peers ==> peers[u] == PrunedChains(st.epoch, st.peers[u]))
        decreases |todo|
      {
        var u :| u in todo;
        var chains := PruneList(st.epoch, peers[u]);
        peers := if chains == [] then peers - {u} else peers[u := chains];
        todo := todo - {u};
      }
      st' := st.(peers := peers);
    }

    method PruneList(epoch: Uint64, chains: seq<PeerChain>) returns (kept: seq<PeerChain>)
      ensures kept == PrunedChains(epoch, chains)
    {
      kept := RemoveOld(epoch, chains);
      kept := DropOldest(kept, MAX_CHAINS_PER_PEER);
    }

    method SyncRoomKeys(room: string, epoch: Uint64, members: seq<string>, generated: Outbound, nonce: Nonce)
      returns (out: seq<Envelope>)
      modifies this`rooms
      ensures (State(), out) == SyncRoom(old(State()), room, epoch, members, generated, nonce)
    {
      hide MakeEnvelope, OfferAll, Prune;
      var st := if room in rooms then rooms[room] else EMPTY_ROOM;
      var rotated, changed := false, false;
      if st.own.None? || st.ownEpoch != epoch {
        st := st.(own := Some(generated), ownEpoch := epoch, distributed := {});
        rotated := true;
      }
      if st.members != members {
        changed := true;
        st := st.(members := members);
        if !rotated {
          st := st.(distributed := {});
        }
      }
      st := st.(epoch := epoch);
      st := PrunePeerChains(st);
      rooms := rooms[room := st];
      if !rotated && !changed {
        return [];
      }
      out := PendingEnvelopes(room, nonce);
      assert rooms == old(rooms)[room := rooms[room]];
    }

    /** `distribute_new_keys`, visiting the rooms in the map's order. */
    method DistributeNewKeys(order: seq<string>, nonce: Nonce) returns (out: seq<Envelope>)
      requires IsOrder(State(), order)
      modifies this`rooms
      ensures (State(), out) == PassOver(old(State()), order, None, nonce)
    {
      hide MakeEnvelope, OfferAll, PassOver;
      out := [];
      PassOverNone(State(), None, nonce);
      for i := 0 to |order|
        invariant rooms.Keys == old(rooms).Keys
        invariant (State(), out) == PassOver(old(State()), order[..i], None, nonce)
      {
        PassOverOneMore(old(State()), order, i, None, nonce);
        assert order[i] in order && out + [] == out;
        if rooms[order[i]].own.Some? {
          var more := PendingEnvelopes(order[i], nonce);
          out := out + more;
        } else {
          assert rooms[order[i] := rooms[order[i]]] == rooms;
        }
      }
      assert order[..|order|] == order;
    }

    /** `on_key_available`. */
    method OnKeyAvailable(user: string, order: seq<string>, nonce: Nonce) returns (out: seq<Envelope>)
      requires IsOrder(State(), order)
      modifies this`rooms
      ensures (State(), out) == PassOver(old(State()), order, Some(user), nonce)
    {
      hide MakeEnvelope, OfferAll, PassOver;
      out := [];
      PassOverNone(State(), Some(user), nonce);
      for i := 0 to |order|
        invariant rooms.Keys == old(rooms).Keys
        invariant (State(), out) == PassOver(old(State()), order[..i], Some(user), nonce)
      {
        PassOverOneMore(old(State()), order, i, Some(user), nonce);
        assert order[i] in order && out + [] == out;
        var room := order[i];
        var st := rooms[room];
        assert rooms[room := st] == rooms;
        if st.own.None? || user !in st.members || user in st.distributed {
          continue;
        }
        var env := MakeEnvelope(me, room, st, user, nonce);
        if env.Some? {
          rooms := rooms[room := st.(distributed := st.distributed + {user})];
          out := out + [env.value];
        }
      }
      assert order[..|order|] == order;
    }

    method ReceiveEnvelope(frame: Option<Envelope>) returns (status: EnvelopeStatus)
      modifies this, store
      ensures (State(), status) == ProcessEnvelope(old(State()), frame)
    {
      hide UnwrapFor, HasEmptyField, Newest, Trust.See;
      if frame.None? || IllFormed(me, frame.value) {
        return INVALID;
      }
      var e := frame.value;
      var answer := CheckKey(e.from, e.wrapped.senderX, e.wrapped.senderEd);
      if answer == Trust.CHANGED {
        return KEY_CHANGED;
      }
      var inner := UnwrapFor(me, e);
      if inner.None? {
        return INVALID;
      }
      var st := if e.room in rooms then rooms[e.room] else EMPTY_ROOM;
      var chains := if e.from in st.peers then st.peers[e.from] else [];
      for i := 0 to |chains|
        invariant forall j | 0 <= j < i :: chains[j].epoch != e.epoch || chains[j].keyId != e.keyId
      {
        if chains[i].epoch == e.epoch && chains[i].keyId == e.keyId {
          return OK;
        }
      }
      chains := DropOldest(chains, MAX_CHAINS_PER_PEER - 1);
      chains := chains + [PeerChain(e.epoch, e.keyId, FreshInbound(inner.value.chainKey))];
      rooms := rooms[e.room := st.(peers := st.peers[e.from := chains])];
      me := me.(keys := me.keys[e.from := e.wrapped.senderX]);
      return OK;
    }

    method SealMessage(room: string, plaintext: Bytes, nonce: Nonce) returns (sealed: Option<SealedMessage>)
      modifies this`rooms
      ensures (State(), sealed) == Seal(old(State()), room, plaintext, nonce)
    {
      if room !in rooms || rooms[room].own.None? || rooms[room].ownEpoch != rooms[room].epoch {
        return None;
      }
      var st := rooms[room];
      var key := new RoomCrypto.OutboundSenderKey(st.own.value);
      sealed := RoomCrypto.SealRoomMessage(key, st.epoch, room, me.username, plaintext, me.signer, nonce);
      if sealed.Some? {
        rooms := rooms[room := st.(own := Some(key.State()))];
      }
    }

    method OpenMessage(room: string, sender: string, payload: Option<Payload>) returns (got: Option<Bytes>)
      modifies this`rooms
      ensures (State(), got) == Open(old(State()), room, sender, payload)
    {
      hide RoomCrypto.Open;
      if payload.None? {
        return None;
      }
      var p := payload.value;
      if p.epoch == 0 || p.index < 0 || !IsValidKeyId(p.keyId) || room !in rooms || sender !in rooms[room].peers {
        return None;
      }
      var st := rooms[room];
      var chains := st.peers[sender];
      var i := 0;
      while i < |chains| && !(chains[i].epoch == p.epoch && chains[i].keyId == p.keyId)
        invariant 0 <= i <= |chains|
        invariant forall j | 0 <= j < i :: chains[j].epoch != p.epoch || chains[j].keyId != p.keyId
      {
        i := i + 1;
      }
      if i == |chains| || sender !in store.users || !IsKeyText(store.users[sender].ed) {
        return None;
      }
      var chain := new InboundSenderKey(chains[i].chain.chain);
      chain.Restore(chains[i].chain);
      got := RoomCrypto.OpenRoomMessage(chain, MessageOf(p), room, sender, store.users[sender].ed);
      if got.Some? {
        rooms := rooms[room := st.(peers := st.peers[sender := chains[i := chains[i].(chain := chain.State())]])];
      }
    }

    method Leave(room: string)
      modifies this`rooms
      ensures State() == LeaveRoom(old(State()), room)
    {
      rooms := rooms - {room};
    }
  }
}
