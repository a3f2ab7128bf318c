/**
 Key confinement. The membership server, all clients and a hostile network run together; the keys
 generated for an epoch stay with the members that the server listed for that epoch.
 */
module EpochProtocol {
  import opened Prelude
  import opened Sodium
  import opened Ratchet
  import opened GroupManager
  import opened GroupInvariant
  import RoomCrypto
  import Hub = Membership
  import HubRuns = MembershipRuns
  import Trust = TrustStore

  // ---- what a coalition can compute ------------------------------------------------------

  /** The key directory, and a coalition whose joint knowledge is bounded (a single outsider, say). */
  datatype Setting = Setting(directory: map<string, string>, coalition: set<string>) {
    ghost predicate Honest() {
      forall u, v | u in directory && v in directory && directory[u] == directory[v] :: u == v
    }

    ghost predicate Theirs(key: string) {
      exists z :: z in coalition && z in directory && directory[z] == key
    }
  }

  /** Who drew a chain key, for which room and epoch, and the member list it was drawn for. */
  datatype Origin = Origin(user: string, room: string, epoch: nat, members: set<string>)

  /** A message sealed by a client, with the epoch the server gave the client. */
  datatype Record = Record(user: string, room: string, epoch: nat, message: SealedMessage)

  /** `sent` and `sealed` only grow: the network may lose, delay, repeat and reorder, and never forgets. */
  datatype World = World(server: Hub.Server, clients: map<string, Client>, sent: set<Envelope>,
                         sealed: set<Record>, minted: map<Secret, Origin>)

  /** The random bytes below a hash chain. */
  function Root(x: Secret): Secret {
    match x
    case Raw(_) => x
    case Digest(_, of) => Root(of)
  }

  predicate Boxed(e: Envelope) {
    e.wrapped.box.Encoded? && e.wrapped.box.value.BoxSealed?
  }

  function BoxedKey(e: Envelope): Secret
    requires Boxed(e)
  {
    e.wrapped.box.value.inner.chainKey
  }

  ghost predicate Readable(cfg: Setting, e: Envelope) {
    Boxed(e) && (cfg.Theirs(e.wrapped.box.value.from) || cfg.Theirs(e.wrapped.box.value.to))
  }

  /**
   Everything the coalition can derive: bytes that no one outside it drew, the contents of every
   box made with one of its key pairs, and hashes of what it knows.
   */
  ghost predicate Knows(cfg: Setting, w: World, x: Secret)
    decreases x
  {
    || (exists e :: e in w.sent && Readable(cfg, e) && BoxedKey(e) == x)
    || match x
       case Raw(_) => x in w.minted ==> w.minted[x].user in cfg.coalition
       case Digest(_, of) => Knows(cfg, w, of)
  }

  // ---- runs ------------------------------------------------------------------------------

  datatype Action =
    | ServerAct(event: Hub.Event)
    | ClientAct(user: string, op: Op)
    | Inject(frame: Envelope)

  /** Random bytes that occur nowhere else. */
  ghost predicate Fresh(w: World, key: Secret) {
    key.Raw? && key !in w.minted && forall e | e in w.sent && Boxed(e) :: Root(BoxedKey(e)) != key
  }

  /** The frame a client syncs from: sent by the server, to a connection of this user. */
  ghost predicate Announced(w: World, user: string, room: string, epoch: nat, members: set<string>) {
    exists b, id :: b in w.server.log && id in b.recipients && id in w.server.names
      && w.server.names[id] == user && b.room == room && b.epoch == epoch && b.members == members
  }

  function SetOf(list: seq<string>): set<string> {
    set m | m in list
  }

  ghost predicate Allowed(cfg: Setting, w: World, a: Action) {
    match a
    case ServerAct(_) => true
    case Inject(e) =>
      && e.from in cfg.coalition
      && (Boxed(e) ==>
            || Knows(cfg, w, BoxedKey(e))
            || exists earlier :: earlier in w.sent && earlier.wrapped.box == e.wrapped.box)
    case ClientAct(user, op) =>
      && user in w.clients && Enabled(w.clients[user], op)
      && match op
         case SyncOp(room, epoch, members, generated, _) =>
           Announced(w, user, room, epoch, SetOf(members)) && Fresh(w, generated.chain)
         case KeyOp(peer, key, _, _) => peer !in cfg.coalition ==> peer in cfg.directory && key == cfg.directory[peer]
         case DirectOp(peer, key, _) => peer !in cfg.coalition ==> peer in cfg.directory && key == cfg.directory[peer]
         case EnvelopeOp(frame) => frame.Some? ==> frame.value in w.sent
         case _ => true
  }

  ghost function MintedBy(w: World, user: string, op: Op): map<Secret, Origin>
    requires user in w.clients
  {
    if op.SyncOp? && Rotates(RoomOf(w.clients[user], op.room), op.epoch)
    then w.minted[op.generated.chain := Origin(user, op.room, op.epoch, SetOf(op.members))]
    else w.minted
  }

  ghost function SealedBy(w: World, user: string, op: Op): set<Record>
    requires user in w.clients
  {
    if op.SealOp? && Seal(w.clients[user], op.room, op.plaintext, op.nonce).1.Some?
    then w.sealed + {Record(user, op.room, w.clients[user].rooms[op.room].epoch,
                            Seal(w.clients[user], op.room, op.plaintext, op.nonce).1.value)}
    else w.sealed
  }

  /** An action that is not allowed changes nothing. */
  ghost function Next(cfg: Setting, w: World, a: Action): World {
    if !Allowed(cfg, w, a) then w
    else match a
      case ServerAct(event) => w.(server := Hub.Step(w.server, event))
      case Inject(e) => w.(sent := w.sent + {e})
      case ClientAct(user, op) =>
        var (c, out) := Step(w.clients[user], op);
        World(w.server, w.clients[user := c], w.sent + (set e | e in out), SealedBy(w, user, op), MintedBy(w, user, op))
  }

  ghost function Run(cfg: Setting, w: World, actions: seq<Action>): World {
    if actions == [] then w else Next(cfg, Run(cfg, w, actions[..|actions| - 1]), actions[|actions| - 1])
  }

  /** Every user of the directory with its own box key, nothing cached and no rooms. */
  ghost predicate Initial(cfg: Setting, w: World) {
    && w.server == Hub.STARTED && w.sent == {} && w.sealed == {} && w.minted == map[]
    && forall u | u in w.clients ::
         && u in cfg.directory && w.clients[u].me.username == u && w.clients[u].me.box.public == cfg.directory[u]
         && w.clients[u].me.keys == map[] && w.clients[u].rooms == map[]
  }

  // ---- the invariant ---------------------------------------------------------------------

  /** Keys are drawn for a member list that the server announced, by one of its members. */
  ghost predicate MintedOk(w: World) {
    forall key | key in w.minted ::
      && w.minted[key].user in w.minted[key].members
      && exists b :: b in w.server.log && b.room == w.minted[key].room && b.epoch == w.minted[key].epoch
                     && b.members == w.minted[key].members
  }

  ghost predicate Protected(cfg: Setting, minted: map<Secret, Origin>, x: Secret) {
    Root(x) in minted && minted[Root(x)].members !! cfg.coalition
  }

  /** An envelope of an honest user carries a key of its own, to a member of that key's epoch. */
  ghost predicate Proper(cfg: Setting, minted: map<Secret, Origin>, e: Envelope) {
    && e.from in cfg.directory && e.wrapped.senderX == cfg.directory[e.from] && Boxed(e)
    && e.wrapped.box.value.from == cfg.directory[e.from]
    && Root(BoxedKey(e)) in minted
    && (var o := minted[Root(BoxedKey(e))];
        o.user == e.from && o.room == e.room && o.epoch == e.epoch && e.recipient in o.members)
    && (e.recipient !in cfg.coalition ==>
          e.recipient in cfg.directory && e.wrapped.box.value.to == cfg.directory[e.recipient])
  }

  ghost predicate EnvelopeFits(cfg: Setting, minted: map<Secret, Origin>, e: Envelope) {
    && (e.from !in cfg.coalition ==> Proper(cfg, minted, e))
    && (Boxed(e) && Protected(cfg, minted, BoxedKey(e)) ==> !Readable(cfg, e))
  }

  ghost predicate KeysFit(cfg: Setting, me: Self) {
    && me.username in cfg.directory && me.box.public == cfg.directory[me.username]
    && forall v | v in me.keys && v !in cfg.coalition :: v in cfg.directory && me.keys[v] == cfg.directory[v]
  }

  ghost predicate OwnFits(minted: map<Secret, Origin>, user: string, room: string, st: RoomState) {
    st.own.Some? ==>
      && Root(st.own.value.chain) in minted
      && minted[Root(st.own.value.chain)] == Origin(user, room, st.ownEpoch, SetOf(st.members))
  }

  /** A chain that was unwrapped with this box key from something on the network. */
  ghost predicate Learned(sent: set<Envelope>, box: string, k: Inbound) {
    exists e :: e in sent && Boxed(e)
      && (e.wrapped.box.value.from == box || e.wrapped.box.value.to == box)
      && KeysBelow(k, Root(BoxedKey(e)))
  }

  ghost predicate KeysBelow(k: Inbound, root: Secret) {
    Root(k.chain) == root && forall j | j in k.skipped :: Root(k.skipped[j]) == root
  }

  ghost predicate ChainsFit(sent: set<Envelope>, box: string, chains: seq<PeerChain>) {
    forall i | 0 <= i < |chains| :: Learned(sent, box, chains[i].chain)
  }

  ghost predicate RoomFits(minted: map<Secret, Origin>, sent: set<Envelope>, me: Self, room: string, st: RoomState) {
    OwnFits(minted, me.username, room, st) && forall p | p in st.peers :: ChainsFit(sent, me.box.public, st.peers[p])
  }

  ghost predicate ClientFits(cfg: Setting, minted: map<Secret, Origin>, sent: set<Envelope>, c: Client) {
    ClientOk(c) && KeysFit(cfg, c.me) && forall r | r in c.rooms :: RoomFits(minted, sent, c.me, r, c.rooms[r])
  }

  ghost predicate RecordFits(minted: map<Secret, Origin>, s: Record) {
    && s.message.ciphertext.Encoded? && s.message.ciphertext.value.AeadSealed?
    && Root(s.message.ciphertext.value.key) in minted
    && (var o := minted[Root(s.message.ciphertext.value.key)];
        o.user == s.user && o.room == s.room && o.epoch == s.epoch)
  }

  ghost predicate Confined(cfg: Setting, w: World) {
    && Hub.ServerOk(w.server) && MintedOk(w)
    && (forall e | e in w.sent :: EnvelopeFits(cfg, w.minted, e))
    && (forall u | u in w.clients :: w.clients[u].me.username == u && ClientFits(cfg, w.minted, w.sent, w.clients[u]))
    && (forall s | s in w.sealed :: RecordFits(w.minted, s))
  }

  // ---- roots -----------------------------------------------------------------------------

  lemma {:induction false} ChainRoot(ck0: Secret, n: nat)
    ensures Root(ChainAt(ck0, n)) == Root(ck0)
  {
    if n != 0 {
      ChainRoot(ck0, n - 1);
    }
  }

  lemma {:induction false} SkippedRoot(k: Inbound, n: nat, j: nat)
    requires KeysBelow(k, Root(k.chain)) && (j in k.skipped || k.next <= j < k.next + n)
    ensures Root((k.skipped + SkippedRange(k.chain, k.next, n))[j]) == Root(k.chain)
  {
    hide SkippedRange, ChainAt;
    if k.next <= j < k.next + n {
      SkippedRangeAt(k.chain, k.next, n, j);
      ChainRoot(k.chain, j - k.next);
    }
  }

  lemma {:induction false} CachedRoots(k: Inbound, n: nat)
    requires KeysBelow(k, Root(k.chain))
    ensures forall j | j in CachedAfter(k, n) :: Root(CachedAfter(k, n)[j]) == Root(k.chain)
  {
    hide CachedAfter, ChainAt, Root, SkippedRange;
    var all := k.skipped + SkippedRange(k.chain, k.next, n);
    CachedAfterSelects(k, n);
    forall j | j in all ensures Root(all[j]) == Root(k.chain) {
      SkippedRoot(k, n, j);
    }
  }

  lemma {:induction false} TakeRoots(k: Inbound, index: Uint32, root: Secret)
    requires KeysBelow(k, root)
    ensures KeysBelow(Take(k, index).0, root)
    ensures Take(k, index).1.Some? ==> Root(Take(k, index).1.value) == root
  {
    hide CachedAfter, ChainAt;
    if index >= k.next {
      CachedRoots(k, index - k.next);
      ChainRoot(k.chain, index - k.next + 1);
      ChainRoot(k.chain, index - k.next);
    }
  }

  lemma {:induction false} OpenRoots(k: Inbound, m: SealedMessage, room: string, sender: string, public: string,
                                     root: Secret)
    requires KeysBelow(k, root)
    ensures var (k', got) := RoomCrypto.Open(k, m, room, sender, public);
      && KeysBelow(k', root)
      && (got.Some? ==> m.ciphertext.Encoded? && m.ciphertext.value.AeadSealed? && Root(m.ciphertext.value.key) == root)
  {
    hide Take, KeysBelow;
    TakeRoots(k, m.index, root);
  }

  // ---- knowledge -------------------------------------------------------------------------

  /** Nothing that the coalition knows descends from a protected key. */
  lemma {:induction false} ProtectedUnknown(cfg: Setting, w: World, x: Secret)
    requires Confined(cfg, w) && Protected(cfg, w.minted, x)
    ensures !Knows(cfg, w, x)
  {
    hide ClientFits, RecordFits, Proper, Hub.ServerOk;
    forall e | e in w.sent && Readable(cfg, e) ensures BoxedKey(e) != x {
      assert EnvelopeFits(cfg, w.minted, e);
    }
    match x
    case Raw(_) => assert w.minted[x].user in w.minted[x].members;
    case Digest(_, of) => ProtectedUnknown(cfg, w, of);
  }

  // ---- what a client puts on the network -------------------------------------------------

  /** An envelope that wraps the own key of this room state for one of its members. */
  ghost predicate Made(me: Self, room: string, st: RoomState, e: Envelope) {
    && e.from == me.username && e.room == room && st.own.Some? && e.epoch == st.ownEpoch
    && e.recipient in st.members && e.recipient in me.keys && e.wrapped.senderX == me.box.public && Boxed(e)
    && e.wrapped.box.value.from == me.box.public && e.wrapped.box.value.to == me.keys[e.recipient]
    && BoxedKey(e) == st.own.value.chain
  }

  lemma {:induction false} OfferAllMakes(me: Self, room: string, st: RoomState, members: seq<string>, nonce: Nonce,
                                         e: Envelope)
    requires forall m | m in members :: m in st.members
    requires e in OfferAll(me, room, st, members, nonce).1
    ensures Made(me, room, st, e)
    decreases |members|
  {
    if members != [] {
      var n := |members| - 1;
      assert members[n] in members;
      OfferAllKeeps(me, room, st, members[..n], nonce);
      if e in OfferAll(me, room, st, members[..n], nonce).1 {
        OfferAllMakes(me, room, st, members[..n], nonce, e);
      }
    }
  }

  lemma {:induction false} RoomPassMakes(me: Self, room: string, st: RoomState, user: Option<string>, nonce: Nonce)
    ensures var (st', out) := RoomPass(me, room, st, user, nonce);
      && st' == st.(distributed := st'.distributed)
      && forall e | e in out :: Made(me, room, st', e)
  {
    hide OfferAll;
    var (st', out) := RoomPass(me, room, st, user, nonce);
    OfferAllKeeps(me, room, st, st.members, nonce);
    forall e | e in out ensures Made(me, room, st', e) {
      if user.None? {
        OfferAllMakes(me, room, st, st.members, nonce, e);
      }
    }
  }

  /** Two states of a client that differ in `distributed` only. */
  ghost predicate SameButServed(c: Client, c': Client) {
    && c'.me == c.me && c'.rooms.Keys == c.rooms.Keys
    && forall r | r in c.rooms :: c'.rooms[r] == c.rooms[r].(distributed := c'.rooms[r].distributed)
  }

  ghost predicate AllMade(c: Client, out: seq<Envelope>) {
    forall e | e in out :: e.room in c.rooms && Made(c.me, e.room, c.rooms[e.room], e)
  }

  lemma {:induction false} PassOverMakes(c: Client, order: seq<string>, user: Option<string>, nonce: Nonce)
    requires forall r | r in order :: r in c.rooms
    ensures var (c', out) := PassOver(c, order, user, nonce);
      SameButServed(c, c') && AllMade(c', out)
    decreases |order|
  {
    hide RoomPass;
    if order != [] {
      var n := |order| - 1;
      assert order[n] in order;
      PassOverMakes(c, order[..n], user, nonce);
      var c1 := PassOver(c, order[..n], user, nonce).0;
      RoomPassMakes(c.me, order[n], c1.rooms[order[n]], user, nonce);
      var (st, out2) := RoomPass(c.me, order[n], c1.rooms[order[n]], user, nonce);
      forall e | e in out2 ensures e.room == order[n] {
        assert Made(c.me, order[n], st, e);
      }
    }
  }

  lemma {:induction false} SyncMakes(c: Client, room: string, epoch: Uint64, members: seq<string>,
                                     generated: Outbound, nonce: Nonce)
    ensures var (c', out) := SyncRoom(c, room, epoch, members, generated, nonce);
      var before := RoomOf(c, room); var after := c'.rooms[room]; var rotated := Rotates(before, epoch);
      && c' == c.(rooms := c.rooms[room := after]) && AllMade(c', out)
      && after.own == (if rotated then Some(generated) else before.own)
      && after.epoch == after.ownEpoch == epoch && after.members == members
      && after.peers == Prune(before.(epoch := epoch)).peers
  {
    hide OfferAll, MakeEnvelope;
    var mid := Synced(RoomOf(c, room), epoch, members, generated);
    OfferAllKeeps(c.me, room, mid, members, nonce);
    forall e | e in OfferAll(c.me, room, mid, members, nonce).1 ensures Made(c.me, room, mid, e) {
      OfferAllMakes(c.me, room, mid, members, nonce, e);
    }
  }

  // ---- envelopes fit ---------------------------------------------------------------------

  lemma {:induction false} MadeFits(cfg: Setting, w: World, c: Client, e: Envelope)
    requires cfg.Honest() && MintedOk(w) && ClientFits(cfg, w.minted, w.sent, c)
    requires e.room in c.rooms && Made(c.me, e.room, c.rooms[e.room], e)
    ensures EnvelopeFits(cfg, w.minted, e)
  {
    hide ClientOk, ChainsFit;
    assert RoomFits(w.minted, w.sent, c.me, e.room, c.rooms[e.room]);
    if e.from in cfg.coalition {
      assert w.minted[Root(BoxedKey(e))].user == e.from;
    } else {
      assert Proper(cfg, w.minted, e);
    }
  }

  lemma {:induction false} InjectedFits(cfg: Setting, w: World, e: Envelope)
    requires Confined(cfg, w) && Allowed(cfg, w, Inject(e))
    ensures EnvelopeFits(cfg, w.minted, e)
  {
    hide ClientFits, RecordFits, Proper, Hub.ServerOk, Knows;
    if Boxed(e) && Protected(cfg, w.minted, BoxedKey(e)) {
      ProtectedUnknown(cfg, w, BoxedKey(e));
      var earlier :| earlier in w.sent && earlier.wrapped.box == e.wrapped.box;
      assert EnvelopeFits(cfg, w.minted, earlier);
    }
  }

  // ---- growth ----------------------------------------------------------------------------

  /** Minting a fresh key disturbs nothing that is on the network or in a client. */
  ghost predicate Grows(minted: map<Secret, Origin>, sent: set<Envelope>, minted': map<Secret, Origin>,
                        sent': set<Envelope>) {
    && sent <= sent'
    && (forall k | k in minted :: k in minted' && minted'[k] == minted[k])
    && (forall e | e in sent && Boxed(e) && Root(BoxedKey(e)) in minted' :: Root(BoxedKey(e)) in minted)
  }

  lemma {:induction false} EnvelopeStillFits(cfg: Setting, minted: map<Secret, Origin>, sent: set<Envelope>,
                                             minted': map<Secret, Origin>, sent': set<Envelope>, e: Envelope)
    requires Grows(minted, sent, minted', sent') && e in sent && EnvelopeFits(cfg, minted, e)
    ensures EnvelopeFits(cfg, minted', e)
  {
    hide Readable;
  }

  lemma {:induction false} ClientStillFits(cfg: Setting, minted: map<Secret, Origin>, sent: set<Envelope>,
                                           minted': map<Secret, Origin>, sent': set<Envelope>, c: Client)
    requires Grows(minted, sent, minted', sent') && ClientFits(cfg, minted, sent, c)
    ensures ClientFits(cfg, minted', sent', c)
  {
    hide ClientOk, KeysBelow;
    forall r | r in c.rooms ensures RoomFits(minted', sent', c.me, r, c.rooms[r]) {
      assert RoomFits(minted, sent, c.me, r, c.rooms[r]);
      forall p | p in c.rooms[r].peers ensures ChainsFit(sent', c.me.box.public, c.rooms[r].peers[p]) {
        assert ChainsFit(sent, c.me.box.public, c.rooms[r].peers[p]);
      }
    }
  }

  // ---- clients fit -----------------------------------------------------------------------

  lemma {:induction false} PrunedStillFit(sent: set<Envelope>, box: string, st: RoomState, p: string)
    requires p in Prune(st).peers && ChainsFit(sent, box, st.peers[p])
    ensures ChainsFit(sent, box, Prune(st).peers[p])
  {
    hide Learned;
    var chains := st.peers[p];
    var keep := SurvivingSelects(st.epoch, chains);
    var kept := Surviving(st.epoch, chains);
    forall i | 0 <= i < |kept| ensures Learned(sent, box, kept[i].chain) {
      assert kept[i] == chains[keep[i]];
    }
  }

  /** What a sync leaves behind: the epoch's key, drawn now or before, for the announced members. */
  lemma {:induction false} SyncedOwnFits(w: World, user: string, op: Op)
    requires op.SyncOp? && user in w.clients && Hub.ServerOk(w.server) && MintedOk(w)
    requires w.clients[user].me.username == user && ClientOk(w.clients[user])
    requires op.room in w.clients[user].rooms ==> OwnFits(w.minted, user, op.room, w.clients[user].rooms[op.room])
    requires Announced(w, user, op.room, op.epoch, SetOf(op.members)) && op.generated.chain.Raw?
    ensures var c' := SyncRoom(w.clients[user], op.room, op.epoch, op.members, op.generated, op.nonce).0;
      OwnFits(MintedBy(w, user, op), user, op.room, c'.rooms[op.room])
  {
    hide SyncRoom, ListOk;
    var c := w.clients[user];
    SyncMakes(c, op.room, op.epoch, op.members, op.generated, op.nonce);
  }

  lemma {:induction false} MintingGrows(w: World, user: string, op: Op)
    requires user in w.clients && (op.SyncOp? ==> Fresh(w, op.generated.chain))
    ensures Grows(w.minted, w.sent, MintedBy(w, user, op), w.sent)
  {
  }

  lemma {:induction false} SyncFits(cfg: Setting, w: World, user: string, op: Op)
    requires Confined(cfg, w) && op.SyncOp? && Allowed(cfg, w, ClientAct(user, op))
    ensures ClientFits(cfg, MintedBy(w, user, op), w.sent, Step(w.clients[user], op).0)
  {
    hide SyncRoom, ClientOk, Hub.ServerOk, Learned, Prune, MintedOk, OwnFits, Fresh, Announced, EnvelopeFits,
         RecordFits, MintedBy;
    var c := w.clients[user];
    var c' := SyncRoom(c, op.room, op.epoch, op.members, op.generated, op.nonce).0;
    StepOk(c, op);
    SyncMakes(c, op.room, op.epoch, op.members, op.generated, op.nonce);
    assert ClientFits(cfg, w.minted, w.sent, c);
    assert op.room in c.rooms ==> RoomFits(w.minted, w.sent, c.me, op.room, c.rooms[op.room]);
    FreshIsRaw(w, op.generated.chain);
    SyncedOwnFits(w, user, op);
    MintingGrows(w, user, op);
    ClientStillFits(cfg, w.minted, w.sent, MintedBy(w, user, op), w.sent, c);
    SyncedPeersFit(w.sent, c.me.box.public, RoomOf(c, op.room).(epoch := op.epoch));
  }

  lemma {:induction false} FreshIsRaw(w: World, key: Secret)
    requires Fresh(w, key)
    ensures key.Raw?
  {
  }

  lemma {:induction false} SyncedPeersFit(sent: set<Envelope>, box: string, st: RoomState)
    requires forall p | p in st.peers :: ChainsFit(sent, box, st.peers[p])
    ensures forall p | p in Prune(st).peers :: ChainsFit(sent, box, Prune(st).peers[p])
  {
    hide ChainsFit;
    forall p | p in Prune(st).peers ensures ChainsFit(sent, box, Prune(st).peers[p]) {
      PrunedStillFit(sent, box, st, p);
    }
  }

  lemma {:induction false} ServingFits(cfg: Setting, minted: map<Secret, Origin>, sent: set<Envelope>, c: Client,
                                       c': Client)
    requires ClientFits(cfg, minted, sent, c) && ClientOk(c') && SameButServed(c, c')
    ensures ClientFits(cfg, minted, sent, c')
  {
    hide ClientOk, ChainsFit;
    forall r | r in c'.rooms ensures RoomFits(minted, sent, c'.me, r, c'.rooms[r]) {
      assert RoomFits(minted, sent, c.me, r, c.rooms[r]);
    }
  }

  lemma {:induction false} CachingFits(cfg: Setting, minted: map<Secret, Origin>, sent: set<Envelope>, c: Client,
                                       peer: string, key: string)
    requires ClientFits(cfg, minted, sent, c)
    requires peer !in cfg.coalition ==> peer in cfg.directory && key == cfg.directory[peer]
    ensures ClientFits(cfg, minted, sent, CacheKey(c, peer, key))
  {
    hide ChainsFit, ListOk;
    var c' := CacheKey(c, peer, key);
    forall r | r in c'.rooms ensures RoomFits(minted, sent, c'.me, r, c'.rooms[r]) {
      assert RoomFits(minted, sent, c.me, r, c.rooms[r]);
    }
  }

  lemma {:induction false} AddedFits(sent: set<Envelope>, box: string, chains: seq<PeerChain>, env: Envelope)
    requires ChainsFit(sent, box, chains) && env in sent && Boxed(env)
    requires env.wrapped.box.value.from == box || env.wrapped.box.value.to == box
    ensures ChainsFit(sent, box, AddChain(chains, env.epoch, env.keyId, BoxedKey(env)))
  {
    assert KeysBelow(FreshInbound(BoxedKey(env)), Root(BoxedKey(env)));
  }

  lemma {:induction false} UnwrappedFrom(me: Self, e: Envelope)
    requires UnwrapFor(me, e).Some?
    ensures Boxed(e) && BoxedKey(e) == UnwrapFor(me, e).value.chainKey
    ensures e.wrapped.box.value.from == me.box.public || e.wrapped.box.value.to == me.box.public
  {
  }

  lemma {:induction false} ReceivingFits(cfg: Setting, minted: map<Secret, Origin>, sent: set<Envelope>, c: Client,
                                         env: Envelope)
    requires ClientFits(cfg, minted, sent, c) && env in sent && EnvelopeFits(cfg, minted, env)
    ensures ClientFits(cfg, minted, sent, ProcessEnvelope(c, Some(env)).0)
  {
    hide ClientOk, ChainsFit, UnwrapFor, AddChain, IllFormed, Readable, Protected;
    EnvelopeOk(c, Some(env));
    var c' := ProcessEnvelope(c, Some(env)).0;
    if UnwrapFor(c.me, env).Some? {
      UnwrappedFrom(c.me, env);
      var st := RoomOf(c, env.room);
      var chains := if env.from in st.peers then st.peers[env.from] else [];
      assert env.room in c.rooms ==> RoomFits(minted, sent, c.me, env.room, c.rooms[env.room]);
      AddedFits(sent, c.me.box.public, chains, env);
    }
    forall r | r in c'.rooms ensures RoomFits(minted, sent, c'.me, r, c'.rooms[r]) {
      assert r in c.rooms ==> RoomFits(minted, sent, c.me, r, c.rooms[r]);
    }
  }

  lemma {:induction false} OpenedFits(sent: set<Envelope>, box: string, k: Inbound, m: SealedMessage, room: string,
                                      sender: string, public: string)
    requires Learned(sent, box, k)
    ensures Learned(sent, box, RoomCrypto.Open(k, m, room, sender, public).0)
  {
    hide KeysBelow, RoomCrypto.Open;
    var e :| e in sent && Boxed(e) && (e.wrapped.box.value.from == box || e.wrapped.box.value.to == box)
      && KeysBelow(k, Root(BoxedKey(e)));
    OpenRoots(k, m, room, sender, public, Root(BoxedKey(e)));
  }

  lemma {:induction false} OpeningFits(cfg: Setting, minted: map<Secret, Origin>, sent: set<Envelope>, c: Client,
                                       room: string, sender: string, payload: Option<Payload>)
    requires ClientFits(cfg, minted, sent, c)
    ensures ClientFits(cfg, minted, sent, Open(c, room, sender, payload).0)
  {
    hide ClientOk, Learned, RoomCrypto.Open;
    OpenOk(c, room, sender, payload);
    var (c', got) := Open(c, room, sender, payload);
    if got.Some? {
      var p := payload.value;
      var chains := c.rooms[room].peers[sender];
      assert RoomFits(minted, sent, c.me, room, c.rooms[room]);
      var i := FindChain(chains, p.epoch, p.keyId);
      OpenedFits(sent, c.me.box.public, chains[i].chain, MessageOf(p), room, sender, c.trust.pins.users[sender].ed);
      forall r | r in c'.rooms ensures RoomFits(minted, sent, c'.me, r, c'.rooms[r]) {
        assert RoomFits(minted, sent, c.me, r, c.rooms[r]);
      }
    }
  }

  lemma {:induction false} SealingFits(cfg: Setting, minted: map<Secret, Origin>, sent: set<Envelope>, c: Client,
                                       room: string, plaintext: Bytes, nonce: Nonce)
    requires ClientFits(cfg, minted, sent, c)
    ensures var (c', sealed) := Seal(c, room, plaintext, nonce);
      && ClientFits(cfg, minted, sent, c')
      && (sealed.Some? ==> RecordFits(minted, Record(c.me.username, room, c.rooms[room].epoch, sealed.value)))
  {
    hide ClientOk, ChainsFit;
    SealOk(c, room, plaintext, nonce);
    var c' := Seal(c, room, plaintext, nonce).0;
    forall r | r in c'.rooms ensures RoomFits(minted, sent, c'.me, r, c'.rooms[r]) {
      assert RoomFits(minted, sent, c.me, r, c.rooms[r]);
    }
  }

  /** Whatever a client does, it still fits, and it emits only envelopes that it made from its state. */
  lemma {:induction false} OpFits(cfg: Setting, w: World, user: string, op: Op)
    requires Confined(cfg, w) && Allowed(cfg, w, ClientAct(user, op))
    ensures var (c', out) := Step(w.clients[user], op);
      ClientFits(cfg, MintedBy(w, user, op), w.sent, c') && c'.me.username == user && AllMade(c', out)
  {
    hide ClientFits, SyncRoom, PassOver, ProcessEnvelope, Open, Seal, Made, EnvelopeFits, RecordFits, Hub.ServerOk,
         Fresh, Announced, MintedOk;
    var c := w.clients[user];
    match op
    case SyncOp(room, epoch, members, generated, nonce) =>
      SyncFits(cfg, w, user, op);
      SyncMakes(c, room, epoch, members, generated, nonce);
    case KeyOp(peer, key, order, nonce) => KeyFits(cfg, w.minted, w.sent, c, op);
    case DirectOp(peer, key, decrypted) =>
      var seen := c.(trust := Trust.See(c.trust, peer, key, "").0);
      RemovalFits(cfg, w.minted, w.sent, c, seen);
      CachingFits(cfg, w.minted, w.sent, seen, peer, key);
    case TickOp(order, nonce) =>
      PassOverMakes(c, order, None, nonce);
      StillOk(cfg, w.minted, w.sent, c, op);
      ServingFits(cfg, w.minted, w.sent, c, PassOver(c, order, None, nonce).0);
    case EnvelopeOp(frame) => EnvelopeOpFits(cfg, w, user, frame);
    case OpenOp(room, sender, payload) =>
      OpeningFits(cfg, w.minted, w.sent, c, room, sender, payload);
      IdentityKept(c, op);
    case SealOp(room, plaintext, nonce) =>
      SealingFits(cfg, w.minted, w.sent, c, room, plaintext, nonce);
      IdentityKept(c, op);
    case LeaveOp(room) => RemovalFits(cfg, w.minted, w.sent, c, Step(c, op).0);
    case TrustOp(event) => RemovalFits(cfg, w.minted, w.sent, c, Step(c, op).0);
  }

  lemma {:induction false} StillOk(cfg: Setting, minted: map<Secret, Origin>, sent: set<Envelope>, c: Client, op: Op)
    requires ClientFits(cfg, minted, sent, c)
    ensures ClientOk(Step(c, op).0)
  {
    hide ClientOk, Step;
    StepOk(c, op);
  }

  /** No operation touches a client's name or secrets. */
  lemma {:induction false} IdentityKept(c: Client, op: Op)
    ensures Step(c, op).0.me == c.me.(keys := Step(c, op).0.me.keys)
  {
    hide RoomPass, Sync, RoomCrypto.Open, RoomCrypto.Seal, AddChain, UnwrapFor, IllFormed;
    if Enabled(c, op) {
      match op
      case KeyOp(user, key, order, nonce) =>
        var trust := Trust.See(c.trust, user, key, "").0;
        PassOverMakes(CacheKey(c.(trust := trust), user, key), order, Some(user), nonce);
      case TickOp(order, nonce) => PassOverMakes(c, order, None, nonce);
      case _ =>
    }
  }

  /** Dropping rooms or changing pins takes nothing on board. */
  lemma {:induction false} RemovalFits(cfg: Setting, minted: map<Secret, Origin>, sent: set<Envelope>, c: Client,
                                       c': Client)
    requires ClientFits(cfg, minted, sent, c)
    requires c'.me == c.me && forall r | r in c'.rooms :: r in c.rooms && c'.rooms[r] == c.rooms[r]
    ensures ClientFits(cfg, minted, sent, c')
  {
    hide RoomOk, RoomFits, KeysFit;
  }

  lemma {:induction false} KeyFits(cfg: Setting, minted: map<Secret, Origin>, sent: set<Envelope>, c: Client, op: Op)
    requires ClientFits(cfg, minted, sent, c) && op.KeyOp? && Enabled(c, op)
    requires op.user !in cfg.coalition ==> op.user in cfg.directory && op.key == cfg.directory[op.user]
    ensures var (c', out) := Step(c, op);
      ClientFits(cfg, minted, sent, c') && c'.me.username == c.me.username && AllMade(c', out)
  {
    hide ClientFits, PassOver, Trust.See, Made;
    var seen := c.(trust := Trust.See(c.trust, op.user, op.key, "").0);
    RemovalFits(cfg, minted, sent, c, seen);
    if op.user != "" && op.key != "" && Trust.See(c.trust, op.user, op.key, "").1 != Trust.CHANGED {
      CachingFits(cfg, minted, sent, seen, op.user, op.key);
      PassOverMakes(CacheKey(seen, op.user, op.key), op.order, Some(op.user), op.nonce);
      StillOk(cfg, minted, sent, c, op);
      ServingFits(cfg, minted, sent, CacheKey(seen, op.user, op.key), Step(c, op).0);
    }
  }

  lemma {:induction false} EnvelopeOpFits(cfg: Setting, w: World, user: string, frame: Option<Envelope>)
    requires Confined(cfg, w) && Allowed(cfg, w, ClientAct(user, EnvelopeOp(frame)))
    ensures var (c', out) := Step(w.clients[user], EnvelopeOp(frame));
      ClientFits(cfg, w.minted, w.sent, c') && c'.me.username == user && out == []
  {
    hide ClientFits, EnvelopeFits, RecordFits, Hub.ServerOk, MintedOk, ProcessEnvelope;
    var c := w.clients[user];
    IdentityKept(c, EnvelopeOp(frame));
    if frame.Some? {
      ReceivingFits(cfg, w.minted, w.sent, c, frame.value);
    } else {
      NoFrame(c);
    }
  }

  lemma {:induction false} NoFrame(c: Client)
    ensures ProcessEnvelope(c, None).0 == c
  {
  }

  // ---- every step, every run -------------------------------------------------------------

  lemma {:induction false} MintingOk(cfg: Setting, w: World, user: string, op: Op)
    requires Confined(cfg, w) && Allowed(cfg, w, ClientAct(user, op))
    ensures MintedOk(w.(minted := MintedBy(w, user, op)))
  {
    hide ClientFits, EnvelopeFits, RecordFits, Fresh, Rotates;
    if op.SyncOp? {
      var b, id :| b in w.server.log && id in b.recipients && id in w.server.names && w.server.names[id] == user
        && b.room == op.room && b.epoch == op.epoch && b.members == SetOf(op.members);
      assert user in b.members;
    }
  }

  lemma {:induction false} RecordStillFits(minted: map<Secret, Origin>, minted': map<Secret, Origin>, s: Record)
    requires RecordFits(minted, s) && forall k | k in minted :: k in minted' && minted'[k] == minted[k]
    ensures RecordFits(minted', s)
  {
  }

  lemma {:induction false} ServerStep(cfg: Setting, w: World, event: Hub.Event)
    requires Confined(cfg, w)
    ensures Confined(cfg, w.(server := Hub.Step(w.server, event)))
  {
    hide ClientFits, EnvelopeFits, RecordFits, Hub.ServerOk, Hub.Step;
    Hub.StepOk(w.server, event);
    Hub.StepExtends(w.server, event);
  }

  lemma {:induction false} InjectStep(cfg: Setting, w: World, e: Envelope)
    requires Confined(cfg, w) && Allowed(cfg, w, Inject(e))
    ensures Confined(cfg, w.(sent := w.sent + {e}))
  {
    hide ClientFits, EnvelopeFits, RecordFits, Hub.ServerOk, Allowed, MintedOk;
    var w' := w.(sent := w.sent + {e});
    InjectedFits(cfg, w, e);
    MintedOkDepends(w, w');
    forall u | u in w'.clients ensures ClientFits(cfg, w'.minted, w'.sent, w'.clients[u]) {
      ClientStillFits(cfg, w.minted, w.sent, w'.minted, w'.sent, w'.clients[u]);
    }
  }

  lemma {:induction false} MintedOkDepends(w: World, w': World)
    requires MintedOk(w) && w'.minted == w.minted && w'.server == w.server
    ensures MintedOk(w')
  {
  }

  lemma {:induction false} ClientStep(cfg: Setting, w: World, user: string, op: Op)
    requires cfg.Honest() && Confined(cfg, w) && Allowed(cfg, w, ClientAct(user, op))
    ensures Confined(cfg, Next(cfg, w, ClientAct(user, op)))
  {
    hide ClientFits, EnvelopeFits, RecordFits, Hub.ServerOk, MintedOk, Step, SealedBy, MintedBy, Made, Fresh,
         Grows, Announced;
    var (c', out) := Step(w.clients[user], op);
    var w' := Next(cfg, w, ClientAct(user, op));
    OpFits(cfg, w, user, op);
    MintingOk(cfg, w, user, op);
    MintingGrows(w, user, op);
    MintedOkDepends(w.(minted := w'.minted), w');
    var mid := w.(minted := w'.minted);
    forall e | e in w'.sent ensures EnvelopeFits(cfg, w'.minted, e) {
      if e in w.sent {
        EnvelopeStillFits(cfg, w.minted, w.sent, w'.minted, w.sent, e);
      } else {
        MadeFits(cfg, mid, c', e);
      }
    }
    SendingGrows(w'.minted, w.sent, w'.sent);
    forall u | u in w'.clients
      ensures w'.clients[u].me.username == u && ClientFits(cfg, w'.minted, w'.sent, w'.clients[u])
    {
      if u != user {
        ClientStillFits(cfg, w.minted, w.sent, w'.minted, w.sent, w.clients[u]);
      }
      ClientStillFits(cfg, w'.minted, w.sent, w'.minted, w'.sent, w'.clients[u]);
    }
    RecordsFit(cfg, w, user, op);
  }

  lemma {:induction false} SendingGrows(minted: map<Secret, Origin>, sent: set<Envelope>, sent': set<Envelope>)
    requires sent <= sent'
    ensures Grows(minted, sent, minted, sent')
  {
  }

  lemma {:induction false} RecordsFit(cfg: Setting, w: World, user: string, op: Op)
    requires Confined(cfg, w) && Allowed(cfg, w, ClientAct(user, op))
    ensures forall s | s in SealedBy(w, user, op) :: RecordFits(MintedBy(w, user, op), s)
  {
    hide ClientFits, EnvelopeFits, RecordFits, Hub.ServerOk, MintedOk, Seal, Fresh;
    MintingGrows(w, user, op);
    forall s | s in SealedBy(w, user, op) ensures RecordFits(MintedBy(w, user, op), s) {
      if s in w.sealed {
        RecordStillFits(w.minted, MintedBy(w, user, op), s);
      } else {
        SealingFits(cfg, w.minted, w.sent, w.clients[user], op.room, op.plaintext, op.nonce);
      }
    }
  }

  lemma {:induction false} NextConfined(cfg: Setting, w: World, a: Action)
    requires cfg.Honest() && Confined(cfg, w)
    ensures Confined(cfg, Next(cfg, w, a))
  {
    hide Confined, Allowed;
    if Allowed(cfg, w, a) {
      match a
      case ServerAct(event) => ServerStep(cfg, w, event);
      case Inject(e) => InjectStep(cfg, w, e);
      case ClientAct(user, op) => ClientStep(cfg, w, user, op);
    }
  }

  lemma {:induction false} RunConfined(cfg: Setting, w: World, actions: seq<Action>)
    requires cfg.Honest() && Initial(cfg, w)
    ensures Confined(cfg, Run(cfg, w, actions))
    decreases |actions|
  {
    hide Confined, Next;
    if actions == [] {
      InitialConfined(cfg, w);
    } else {
      RunConfined(cfg, w, actions[..|actions| - 1]);
      NextConfined(cfg, Run(cfg, w, actions[..|actions| - 1]), actions[|actions| - 1]);
    }
  }

  lemma {:induction false} InitialConfined(cfg: Setting, w: World)
    requires Initial(cfg, w)
    ensures Confined(cfg, w)
  {
    hide Hub.ServerOk;
    Hub.StartedOk();
  }

  // ---- the theorems ----------------------------------------------------------------------

  /** The member list that the server announced for an epoch of a room. */
  ghost predicate Lists(w: World, room: string, epoch: nat, members: set<string>) {
    exists b :: b in w.server.log && b.room == room && b.epoch == epoch && b.members == members
  }

  /**
   Every key envelope that a user outside the coalition ever created for an epoch is from a member
   to a member of the list announced for that epoch, under the directory keys of both.
   */
  lemma {:induction false} EnvelopesStayInEpoch(cfg: Setting, w0: World, actions: seq<Action>, e: Envelope,
                                                members: set<string>)
    requires cfg.Honest() && Initial(cfg, w0)
    requires var w := Run(cfg, w0, actions);
      e in w.sent && e.from !in cfg.coalition && Lists(w, e.room, e.epoch, members)
    ensures e.from in members && e.recipient in members
    ensures Boxed(e) && e.from in cfg.directory && e.wrapped.box.value.from == cfg.directory[e.from]
    ensures e.recipient !in cfg.coalition ==>
              e.recipient in cfg.directory && e.wrapped.box.value.to == cfg.directory[e.recipient]
  {
    hide ClientFits, RecordFits, Hub.ServerOk, Run;
    RunConfined(cfg, w0, actions);
    var w := Run(cfg, w0, actions);
    assert EnvelopeFits(cfg, w.minted, e);
    ListedIsMinted(w, Root(BoxedKey(e)), e.room, e.epoch, members);
  }

  lemma {:induction false} ListedIsMinted(w: World, key: Secret, room: string, epoch: nat, members: set<string>)
    requires Hub.ServerOk(w.server) && MintedOk(w) && Lists(w, room, epoch, members)
    requires key in w.minted && w.minted[key].room == room && w.minted[key].epoch == epoch
    ensures w.minted[key].members == members
  {
    hide Hub.ServerOk;
    var a :| a in w.server.log && a.room == room && a.epoch == epoch && a.members == members;
    var b :| b in w.server.log && b.room == room && b.epoch == epoch && b.members == w.minted[key].members;
    Hub.EpochDeterminesMembers(w.server, a, b);
  }

  lemma {:induction false} RecordProtected(cfg: Setting, w: World, s: Record, members: set<string>)
    requires Confined(cfg, w) && s in w.sealed && Lists(w, s.room, s.epoch, members) && members !! cfg.coalition
    ensures s.message.ciphertext.Encoded? && s.message.ciphertext.value.AeadSealed?
    ensures Protected(cfg, w.minted, s.message.ciphertext.value.key)
  {
    hide ClientFits, EnvelopeFits, Hub.ServerOk;
    assert RecordFits(w.minted, s);
    ListedIsMinted(w, Root(s.message.ciphertext.value.key), s.room, s.epoch, members);
  }

  /**
   Confidentiality: whatever a coalition does, pools and injects, the key of a message sealed in
   an epoch whose announced list contains none of them is never among what they can derive.
   */
  lemma {:induction false} SealedKeysStaySecret(cfg: Setting, w0: World, actions: seq<Action>, s: Record,
                                                members: set<string>)
    requires cfg.Honest() && Initial(cfg, w0)
    requires var w := Run(cfg, w0, actions);
      s in w.sealed && Lists(w, s.room, s.epoch, members) && members !! cfg.coalition
    ensures s.message.ciphertext.Encoded? && s.message.ciphertext.value.AeadSealed?
    ensures !Knows(cfg, Run(cfg, w0, actions), s.message.ciphertext.value.key)
  {
    hide Confined, Protected, Lists, Run, Knows;
    RunConfined(cfg, w0, actions);
    var w := Run(cfg, w0, actions);
    RecordProtected(cfg, w, s, members);
    ProtectedUnknown(cfg, w, s.message.ciphertext.value.key);
  }

  /**
   Confinement: a user absent from an epoch's list (removed earlier or not yet joined) never opens
   a message sealed in that epoch, under whatever room, sender or header it is presented.
   */
  lemma {:induction false} OutsiderNeverOpens(cfg: Setting, w0: World, actions: seq<Action>, s: Record,
                                              members: set<string>,
                                              user: string, room: string, sender: string, payload: Payload)
    requires cfg.Honest() && Initial(cfg, w0)
    requires var w := Run(cfg, w0, actions);
      && s in w.sealed && Lists(w, s.room, s.epoch, members) && members !! cfg.coalition
      && user in w.clients && user in cfg.coalition
    requires payload.ciphertext == s.message.ciphertext
    ensures Open(Run(cfg, w0, actions).clients[user], room, sender, Some(payload)).1.None?
  {
    hide Confined, Protected, Lists, Run, Open;
    RunConfined(cfg, w0, actions);
    var w := Run(cfg, w0, actions);
    RecordProtected(cfg, w, s, members);
    var c := w.clients[user];
    if Open(c, room, sender, Some(payload)).1.Some? {
      OpenedIsReadable(cfg, w, user, room, sender, payload);
    }
  }

  lemma {:induction false} OpenedIsReadable(cfg: Setting, w: World, user: string, room: string, sender: string,
                                            payload: Payload)
    requires Confined(cfg, w) && user in w.clients && user in cfg.coalition
    requires Open(w.clients[user], room, sender, Some(payload)).1.Some?
    ensures payload.ciphertext.Encoded? && payload.ciphertext.value.AeadSealed?
    ensures !Protected(cfg, w.minted, payload.ciphertext.value.key)
  {
    hide ClientOk, RoomCrypto.Open, KeysBelow, Proper, Hub.ServerOk, RecordFits, MintedOk;
    var c := w.clients[user];
    assert ClientFits(cfg, w.minted, w.sent, c) && RoomFits(w.minted, w.sent, c.me, room, c.rooms[room]);
    var chains := c.rooms[room].peers[sender];
    var k := chains[FindChain(chains, payload.epoch, payload.keyId)].chain;
    assert Learned(w.sent, c.me.box.public, k);
    var e :| e in w.sent && Boxed(e)
      && (e.wrapped.box.value.from == c.me.box.public || e.wrapped.box.value.to == c.me.box.public)
      && KeysBelow(k, Root(BoxedKey(e)));
    OpenRoots(k, MessageOf(payload), room, sender, c.trust.pins.users[sender].ed, Root(BoxedKey(e)));
    assert cfg.Theirs(c.me.box.public) && EnvelopeFits(cfg, w.minted, e);
  }

  // ---- users who left, or have not joined yet --------------------------------------------

  function EventsIn(actions: seq<Action>): seq<Hub.Event> {
    if actions == [] then []
    else
      var n := |actions| - 1;
      EventsIn(actions[..n]) + (if actions[n].ServerAct? then [actions[n].event] else [])
  }

  lemma {:induction false} ServerRuns(cfg: Setting, w: World, actions: seq<Action>)
    ensures Run(cfg, w, actions).server == HubRuns.RunFrom(w.server, EventsIn(actions))
    decreases |actions|
  {
    hide Hub.Step, Step, SealedBy, MintedBy;
    if actions != [] {
      var n := |actions| - 1;
      ServerRuns(cfg, w, actions[..n]);
      var events := EventsIn(actions);
      if actions[n].ServerAct? {
        assert events[..|events| - 1] == EventsIn(actions[..n]);
      } else {
        assert events == EventsIn(actions[..n]);
      }
    }
  }

  lemma {:induction false} RunConcat(cfg: Setting, w: World, a: seq<Action>, b: seq<Action>)
    ensures Run(cfg, w, a + b) == Run(cfg, Run(cfg, w, a), b)
    decreases |b|
  {
    hide Next;
    if b == [] {
      assert a + b == a;
    } else {
      assert (a + b)[..|a + b| - 1] == a + b[..|b| - 1];
      RunConcat(cfg, w, a, b[..|b| - 1]);
    }
  }

  /** None of the coalition is in the room, and none joins it in the run. */
  ghost predicate StayOut(cfg: Setting, s: Hub.Server, events: seq<Hub.Event>, room: string) {
    forall z | z in cfg.coalition ::
      && HubRuns.Absent(s, z, room)
      && forall i | 0 <= i < |events| :: HubRuns.NotJoinedBy(HubRuns.RunFrom(s, events[..i]), events[i], z, room)
  }

  /**
   Whoever has left a room (or has not joined it) learns nothing of the epochs announced until one of
   its connections joins: the message keys of those epochs are not derivable and nothing opens.
   */
  lemma {:induction false} RemovedNeverOpens(cfg: Setting, w0: World, before: seq<Action>, after: seq<Action>,
                                             s: Record, b: Hub.Broadcast, user: string, room: string, sender: string,
                                             payload: Payload)
    requires cfg.Honest() && Initial(cfg, w0)
    requires var w1 := Run(cfg, w0, before); var w2 := Run(cfg, w1, after);
      && StayOut(cfg, w1.server, EventsIn(after), s.room)
      && s in w2.sealed && HubRuns.SentIn(w1.server, w2.server, b) && b.room == s.room && b.epoch == s.epoch
      && user in w2.clients && user in cfg.coalition
    requires payload.ciphertext == s.message.ciphertext
    ensures var w2 := Run(cfg, Run(cfg, w0, before), after);
      && Open(w2.clients[user], room, sender, Some(payload)).1.None?
      && payload.ciphertext.Encoded? && payload.ciphertext.value.AeadSealed?
      && !Knows(cfg, w2, payload.ciphertext.value.key)
  {
    hide Run, Open, Knows, Hub.ServerOk, HubRuns.Absent, HubRuns.NotJoinedBy, HubRuns.RunFrom, EventsIn;
    var w1 := Run(cfg, w0, before);
    var w2 := Run(cfg, w1, after);
    RunConcat(cfg, w0, before, after);
    ServerIsOk(cfg, w0, before);
    ServerRuns(cfg, w1, after);
    forall z | z in cfg.coalition ensures z !in b.members {
      HubRuns.UnlistedUntilJoined(w1.server, EventsIn(after), z, s.room, b);
    }
    assert b in w2.server.log;
    OutsiderNeverOpens(cfg, w0, before + after, s, b.members, user, room, sender, payload);
    SealedKeysStaySecret(cfg, w0, before + after, s, b.members);
  }

  lemma {:induction false} ServerIsOk(cfg: Setting, w0: World, actions: seq<Action>)
    requires cfg.Honest() && Initial(cfg, w0)
    ensures Hub.ServerOk(Run(cfg, w0, actions).server)
  {
    hide Run, Hub.ServerOk, ClientFits, EnvelopeFits, RecordFits, MintedOk, Initial;
    RunConfined(cfg, w0, actions);
  }

  /** The bound is the right one: who can read one envelope of a chain derives all its later message keys. */
  lemma {:induction false} ReadersKnow(cfg: Setting, w: World, e: Envelope, i: nat)
    requires e in w.sent && Readable(cfg, e)
    ensures Knows(cfg, w, MessageKeyAt(BoxedKey(e), i))
  {
    ReadersFollow(cfg, w, e, i);
  }

  lemma {:induction false} ReadersFollow(cfg: Setting, w: World, e: Envelope, i: nat)
    requires e in w.sent && Readable(cfg, e)
    ensures Knows(cfg, w, ChainAt(BoxedKey(e), i))
  {
    if i != 0 {
      ReadersFollow(cfg, w, e, i - 1);
    }
  }
}
