/** The room-state invariant, kept by every operation of the client and so along every run. */
module GroupInvariant {
  import opened Prelude
  import opened Sodium
  import opened SigningInputs
  import opened LargestIndices
  import opened Ratchet
  import opened GroupManager
  import RoomCrypto
  import Trust = TrustStore

  // ---- runs ------------------------------------------------------------------------------

  datatype Op =
    | SyncOp(room: string, epoch: Uint64, members: seq<string>, generated: Outbound, nonce: Nonce)
    | KeyOp(user: string, key: string, order: seq<string>, nonce: Nonce)
    | DirectOp(user: string, key: string, decrypted: bool)
    | TickOp(order: seq<string>, nonce: Nonce)
    | EnvelopeOp(frame: Option<Envelope>)
    | OpenOp(room: string, sender: string, payload: Option<Payload>)
    | SealOp(room: string, plaintext: Bytes, nonce: Nonce)
    | LeaveOp(room: string)
    | TrustOp(event: Trust.Event)

  /** A freshly generated sender key. */
  predicate IsGenerated(out: Outbound) {
    out.chain.Size() == KEY_BYTES && out.index == 0 && IsValidKeyId(out.keyId)
  }

  ghost predicate Enabled(c: Client, op: Op) {
    match op
    case SyncOp(_, _, _, generated, _) => IsGenerated(generated)
    case KeyOp(_, _, order, _) => IsOrder(c, order)
    case TickOp(order, _) => IsOrder(c, order)
    case TrustOp(event) => !event.Seen? // keys are seen in key responses, direct messages and envelopes
    case _ => true
  }

  /** A key response: trust check, cache, release what waited for the key. */
  function KeyResponse(c: Client, user: string, key: string, order: seq<string>, nonce: Nonce): (Client,
                       seq<Envelope>)
    requires forall r | r in order :: r in c.rooms
  {
    if user == "" || key == "" then (c, [])
    else
      var (trust, status) := Trust.See(c.trust, user, key, "");
      if status == Trust.CHANGED then (c.(trust := trust), [])
      else PassOver(CacheKey(c.(trust := trust), user, key), order, Some(user), nonce)
  }

  /** An encrypted direct message: trust check, and its key is cached if it decrypts. */
  function DirectMessage(c: Client, user: string, key: string, decrypted: bool): Client {
    if user == "" || key == "" then c
    else
      var (trust, status) := Trust.See(c.trust, user, key, "");
      if status == Trust.CHANGED || !decrypted then c.(trust := trust)
      else CacheKey(c.(trust := trust), user, key)
  }

  /** A disabled operation leaves the client alone. */
  ghost function Step(c: Client, op: Op): (Client, seq<Envelope>) {
    if !Enabled(c, op) then (c, [])
    else match op
      case SyncOp(room, epoch, members, generated, nonce) => SyncRoom(c, room, epoch, members, generated, nonce)
      case KeyOp(user, key, order, nonce) => KeyResponse(c, user, key, order, nonce)
      case DirectOp(user, key, decrypted) => (DirectMessage(c, user, key, decrypted), [])
      case TickOp(order, nonce) => PassOver(c, order, None, nonce)
      case EnvelopeOp(frame) => (ProcessEnvelope(c, frame).0, [])
      case OpenOp(room, sender, payload) => (Open(c, room, sender, payload).0, [])
      case SealOp(room, plaintext, nonce) => (Seal(c, room, plaintext, nonce).0, [])
      case LeaveOp(room) => (LeaveRoom(c, room), [])
      case TrustOp(event) => (c.(trust := Trust.Step(c.trust, event)), [])
  }

  ghost function Exec(c: Client, ops: seq<Op>): Client {
    if ops == [] then c else Step(Exec(c, ops[..|ops| - 1]), ops[|ops| - 1]).0
  }

  // ---- the invariant ---------------------------------------------------------------------

  ghost predicate OwnOk(st: RoomState) {
    st.own.Some? ==>
      && st.ownEpoch == st.epoch
      && st.own.value.chain.Size() == KEY_BYTES && IsValidKeyId(st.own.value.keyId)
  }

  ghost predicate DistributedOk(st: RoomState) {
    forall m | m in st.distributed :: m in st.members
  }

  ghost predicate ChainOk(k: Inbound) {
    && k.chain.Size() == KEY_BYTES && WithinCap(k.skipped)
    && forall j | j in k.skipped :: j < TWO_32 && k.skipped[j].Size() == KEY_BYTES
  }

  predicate Distinct(a: PeerChain, b: PeerChain) {
    a.epoch != b.epoch || a.keyId != b.keyId
  }

  ghost predicate ChainsOk(chains: seq<PeerChain>) {
    && (forall i | 0 <= i < |chains| :: ChainOk(chains[i].chain))
    && (forall i, j | 0 <= i < j < |chains| :: Distinct(chains[i], chains[j]))
  }

  ghost predicate ListOk(chains: seq<PeerChain>) {
    0 < |chains| <= 6 && ChainsOk(chains)
  }

  ghost predicate PeersOk(st: RoomState) {
    forall u | u in st.peers :: ListOk(st.peers[u])
  }

  /** An own key belongs to the current epoch, only members have been served, peer lists are well formed. */
  ghost predicate RoomOk(st: RoomState) {
    OwnOk(st) && DistributedOk(st) && PeersOk(st)
  }

  ghost predicate ClientOk(c: Client) {
    forall r | r in c.rooms :: RoomOk(c.rooms[r])
  }

  // ---- distribution ----------------------------------------------------------------------

  lemma {:induction false} OfferAllServesMembers(me: Self, room: string, st: RoomState, members: seq<string>,
                                                 nonce: Nonce)
    requires forall m | m in members :: m in st.members
    requires RoomOk(st)
    ensures RoomOk(OfferAll(me, room, st, members, nonce).0)
    decreases |members|
  {
    hide MakeEnvelope, ListOk;
    OfferAllKeeps(me, room, st, members, nonce);
    if members != [] {
      var n := |members| - 1;
      OfferAllServesMembers(me, room, st, members[..n], nonce);
      OfferAllKeeps(me, room, st, members[..n], nonce);
      assert members[n] in members;
    }
  }

  lemma {:induction false} RoomPassOk(me: Self, room: string, st: RoomState, user: Option<string>, nonce: Nonce)
    requires RoomOk(st)
    ensures RoomOk(RoomPass(me, room, st, user, nonce).0)
  {
    hide MakeEnvelope, OfferAll, ListOk;
    OfferAllServesMembers(me, room, st, st.members, nonce);
  }

  lemma {:induction false} PassOverOk(c: Client, order: seq<string>, user: Option<string>, nonce: Nonce)
    requires ClientOk(c) && forall r | r in order :: r in c.rooms
    ensures ClientOk(PassOver(c, order, user, nonce).0)
    ensures PassOver(c, order, user, nonce).0.rooms.Keys == c.rooms.Keys
    decreases |order|
  {
    hide RoomOk, RoomPass;
    if order != [] {
      var n := |order| - 1;
      assert order[n] in order;
      PassOverOk(c, order[..n], user, nonce);
      RoomPassOk(c.me, order[n], PassOver(c, order[..n], user, nonce).0.rooms[order[n]], user, nonce);
    }
  }

  // ---- pruning ---------------------------------------------------------------------------

  /** The surviving chains, in order: `keep` lists their positions. */
  ghost predicate IsSelection(chains: seq<PeerChain>, kept: seq<PeerChain>, keep: seq<nat>) {
    && |keep| == |kept|
    && (forall i | 0 <= i < |keep| :: keep[i] < |chains| && kept[i] == chains[keep[i]])
    && (forall i, j | 0 <= i < j < |keep| :: keep[i] < keep[j])
  }

  /** Pruning keeps exactly the chains that pass the age test, each once and in their old order. */
  lemma {:induction false} SurvivingSelects(epoch: Uint64, chains: seq<PeerChain>) returns (keep: seq<nat>)
    ensures IsSelection(chains, Surviving(epoch, chains), keep)
    ensures forall i: nat | i < |chains| :: i in keep <==> Survives(epoch, chains[i])
    decreases |chains|
  {
    if chains == [] {
      keep := [];
    } else {
      var n := |chains| - 1;
      var prefix := SurvivingSelects(epoch, chains[..n]);
      keep := if Survives(epoch, chains[n]) then prefix + [n] else prefix;
      SelectionGrows(epoch, chains, prefix, keep);
    }
  }

  /** A selection from a prefix is one from the whole list, with or without the last element. */
  lemma {:induction false} SelectionExtends(chains: seq<PeerChain>, kept: seq<PeerChain>, prefix: seq<nat>)
    requires chains != [] && IsSelection(chains[..|chains| - 1], kept, prefix)
    ensures IsSelection(chains, kept, prefix) && |chains| - 1 !in prefix
    ensures IsSelection(chains, kept + [chains[|chains| - 1]], prefix + [|chains| - 1])
  {
  }

  lemma {:induction false} SelectionGrows(epoch: Uint64, chains: seq<PeerChain>, prefix: seq<nat>, keep: seq<nat>)
    requires chains != []
    requires IsSelection(chains[..|chains| - 1], Surviving(epoch, chains[..|chains| - 1]), prefix)
    requires forall i: nat | i < |chains| - 1 :: i in prefix <==> Survives(epoch, chains[..|chains| - 1][i])
    requires keep == if Survives(epoch, chains[|chains| - 1]) then prefix + [|chains| - 1] else prefix
    ensures IsSelection(chains, Surviving(epoch, chains), keep)
    ensures forall i: nat | i < |chains| :: i in keep <==> Survives(epoch, chains[i])
  {
    hide Survives, IsSelection;
    var n := |chains| - 1;
    var kept := Surviving(epoch, chains[..n]);
    SelectionExtends(chains, kept, prefix);
    assert kept + [] == kept;
    forall i: nat | i < |chains| ensures i in keep <==> Survives(epoch, chains[i]) {
      if i < n {
        assert chains[..n][i] == chains[i];
      }
    }
  }

  lemma {:induction false} SurvivingOk(epoch: Uint64, chains: seq<PeerChain>)
    requires ChainsOk(chains)
    ensures ChainsOk(Surviving(epoch, chains)) && |Surviving(epoch, chains)| <= |chains|
  {
    hide ChainOk;
    var keep := SurvivingSelects(epoch, chains);
    var kept := Surviving(epoch, chains);
    forall i, j | 0 <= i < j < |kept| ensures Distinct(kept[i], kept[j]) {
      assert keep[i] < keep[j];
    }
    SurvivingNotLonger(epoch, chains);
  }

  lemma {:induction false} SurvivingNotLonger(epoch: Uint64, chains: seq<PeerChain>)
    ensures |Surviving(epoch, chains)| <= |chains|
  {
    if chains != [] {
      SurvivingNotLonger(epoch, chains[..|chains| - 1]);
    }
  }

  /** After a sync to `epoch` each peer has exactly its chains of the last three epochs, in order. */
  lemma {:induction false} PruneExact(st: RoomState, u: string)
    requires PeersOk(st)
    ensures var after := Prune(st).peers; var before := if u in st.peers then st.peers[u] else [];
      && (u in after <==> Surviving(st.epoch, before) != [])
      && (u in after ==> after[u] == Surviving(st.epoch, before))
  {
    if u in st.peers {
      SurvivingOk(st.epoch, st.peers[u]);
    }
  }

  /** Away from the end of the 64-bit range the age test is the one the design states. */
  lemma {:induction false} AgeTest(epoch: Uint64, c: PeerChain)
    ensures c.epoch + 2 < TWO_64 ==> (Survives(epoch, c) <==> c.epoch + 2 >= epoch)
    ensures c.epoch + 2 >= TWO_64 && epoch > 1 ==> !Survives(epoch, c)
  {
  }

  lemma {:induction false} PruneOk(st: RoomState)
    requires RoomOk(st)
    ensures RoomOk(Prune(st))
  {
    hide ListOk, ChainsOk, Surviving;
    forall u | u in Prune(st).peers ensures ListOk(Prune(st).peers[u]) {
      assert ListOk(st.peers[u]);
      PruneListOk(st.epoch, st.peers[u]);
    }
  }

  lemma {:induction false} PruneListOk(epoch: Uint64, chains: seq<PeerChain>)
    requires ListOk(chains) && PrunedChains(epoch, chains) != []
    ensures ListOk(PrunedChains(epoch, chains))
  {
    SurvivingOk(epoch, chains);
  }

  lemma {:induction false} SyncOk(me: Self, room: string, st: RoomState, epoch: Uint64, members: seq<string>,
                                  generated: Outbound, nonce: Nonce)
    requires RoomOk(st) && IsGenerated(generated)
    ensures RoomOk(Sync(me, room, st, epoch, members, generated, nonce).0)
  {
    hide ListOk, OfferAll, Prune;
    var mid := SyncedBeforePruning(st, epoch, members, generated);
    PruneOk(mid);
    OfferAllServesMembers(me, room, Prune(mid), Prune(mid).members, nonce);
  }

  // ---- chains ----------------------------------------------------------------------------

  lemma {:induction false} CachedAfterOk(k: Inbound, n: nat)
    requires ChainOk(k) && k.next + n <= TWO_32
    ensures WithinCap(CachedAfter(k, n))
    ensures forall j | j in CachedAfter(k, n) :: j < TWO_32 && CachedAfter(k, n)[j].Size() == KEY_BYTES
  {
    hide KeepLargestKeys, KeepLargest, WithinCap;
    var all := k.skipped + SkippedRange(k.chain, k.next, n);
    CachedAfterKeeps(k, n);
    KeptKeys(all);
    forall j | j in all ensures j < TWO_32 && all[j].Size() == KEY_BYTES {
      if k.next <= j < k.next + n {
        SkippedRangeAt(k.chain, k.next, n, j);
      }
    }
  }

  lemma {:induction false} TakeOk(k: Inbound, index: Uint32)
    requires ChainOk(k)
    ensures ChainOk(Take(k, index).0)
  {
    hide KeepLargestKeys, CachedAfter, WithinCap;
    if index < k.next {
      if index in k.skipped {
        StaysWithinCap(k.skipped, index);
      }
    } else {
      CachedAfterOk(k, index - k.next);
      ChainAtSize(k.chain, index - k.next + 1);
    }
  }

  lemma {:induction false} OpenChainOk(k: Inbound, m: SealedMessage, room: string, sender: string, public: string)
    requires ChainOk(k)
    ensures ChainOk(RoomCrypto.Open(k, m, room, sender, public).0)
  {
    hide Take, ChainOk;
    TakeOk(k, m.index);
  }

  lemma {:induction false} OpenOk(c: Client, room: string, sender: string, payload: Option<Payload>)
    requires ClientOk(c)
    ensures ClientOk(Open(c, room, sender, payload).0)
  {
    hide RoomCrypto.Open, ChainOk;
    if Open(c, room, sender, payload).1.Some? {
      var p := payload.value;
      var st := c.rooms[room];
      var chains := st.peers[sender];
      assert RoomOk(st) && ListOk(chains);
      var i := FindChain(chains, p.epoch, p.keyId);
      OpenChainOk(chains[i].chain, MessageOf(p), room, sender, c.trust.pins.users[sender].ed);
      var chains' := Open(c, room, sender, payload).0.rooms[room].peers[sender];
      assert forall j | 0 <= j < |chains| && j != i :: chains'[j] == chains[j];
      assert ListOk(chains');
    }
  }

  lemma {:induction false} AddChainOk(chains: seq<PeerChain>, epoch: Uint64, keyId: string, chainKey: Secret)
    requires chains == [] || ListOk(chains)
    requires chainKey.Size() == KEY_BYTES
    ensures ListOk(AddChain(chains, epoch, keyId, chainKey))
  {
    assert WithinCap(map[]);
  }

  lemma {:induction false} EnvelopeOk(c: Client, frame: Option<Envelope>)
    requires ClientOk(c)
    ensures ClientOk(ProcessEnvelope(c, frame).0)
  {
    hide ListOk, AddChain, Trust.See, IllFormed;
    if frame.Some? && UnwrapFor(c.me, frame.value).Some? {
      var e := frame.value;
      var st := RoomOf(c, e.room);
      assert RoomOk(st);
      var chains := if e.from in st.peers then st.peers[e.from] else [];
      AddChainOk(chains, e.epoch, e.keyId, UnwrapFor(c.me, e).value.chainKey);
    }
  }

  lemma {:induction false} SealOk(c: Client, room: string, plaintext: Bytes, nonce: Nonce)
    requires ClientOk(c)
    ensures ClientOk(Seal(c, room, plaintext, nonce).0)
  {
    hide ListOk;
  }

  /** Every operation keeps the invariant of every room. */
  lemma {:induction false} StepOk(c: Client, op: Op)
    requires ClientOk(c)
    ensures ClientOk(Step(c, op).0)
  {
    hide RoomOk, PassOver, ProcessEnvelope, Open, Seal, Sync, Trust.See, Trust.Step;
    if Enabled(c, op) {
      match op
      case SyncOp(room, epoch, members, generated, nonce) =>
        EmptyRoomOk();
        SyncOk(c.me, room, RoomOf(c, room), epoch, members, generated, nonce);
      case KeyOp(user, key, order, nonce) =>
        var trust := Trust.See(c.trust, user, key, "").0;
        PassOverOk(CacheKey(c.(trust := trust), user, key), order, Some(user), nonce);
      case DirectOp(user, key, decrypted) =>
      case TickOp(order, nonce) => PassOverOk(c, order, None, nonce);
      case EnvelopeOp(frame) => EnvelopeOk(c, frame);
      case OpenOp(room, sender, payload) => OpenOk(c, room, sender, payload);
      case SealOp(room, plaintext, nonce) => SealOk(c, room, plaintext, nonce);
      case LeaveOp(room) =>
      case TrustOp(event) =>
    }
  }

  lemma {:induction false} EmptyRoomOk()
    ensures RoomOk(EMPTY_ROOM)
  {
  }

  /** So does every run from a client without rooms. */
  lemma {:induction false} RunOk(c: Client, ops: seq<Op>)
    requires ClientOk(c)
    ensures ClientOk(Exec(c, ops))
    decreases |ops|
  {
    hide ClientOk, Step;
    if ops != [] {
      RunOk(c, ops[..|ops| - 1]);
      StepOk(Exec(c, ops[..|ops| - 1]), ops[|ops| - 1]);
    }
  }

  /** Hence sealing fails only for want of a key: the "out of date" refusal is unreachable. */
  lemma {:induction false} SealFailsOnlyWithoutKey(c: Client, ops: seq<Op>, room: string, plaintext: Bytes,
                                                   nonce: Nonce)
    requires c.rooms == map[]
    ensures var c' := Exec(c, ops);
      Seal(c', room, plaintext, nonce).1.Some? <==> room in c'.rooms && c'.rooms[room].own.Some?
  {
    hide Exec, ListOk;
    RunOk(c, ops);
  }
}
