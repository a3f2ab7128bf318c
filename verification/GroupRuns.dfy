/** Guarantees of the client over whole runs: exactly-once key distribution, and replay safety. */
module GroupRuns {
  import opened Prelude
  import opened Sodium
  import opened SigningInputs
  import opened Ratchet
  import opened GroupManager
  import opened GroupInvariant
  import RoomCrypto
  import RoomDelivery
  import Trust = TrustStore

  // ---- who has been sent our key ---------------------------------------------------------

  function RecipientsIn(envs: seq<Envelope>, room: string): seq<string> {
    if envs == [] then []
    else
      var n := |envs| - 1;
      RecipientsIn(envs[..n], room) + (if envs[n].room == room then [envs[n].recipient] else [])
  }

  lemma {:induction false} RecipientsConcat(a: seq<Envelope>, b: seq<Envelope>, room: string)
    ensures RecipientsIn(a + b, room) == RecipientsIn(a, room) + RecipientsIn(b, room)
    decreases |b|
  {
    if b == [] {
      assert a + b == a;
    } else {
      var n := |b| - 1;
      assert (a + b)[..|a| + n] == a + b[..n];
      RecipientsConcat(a, b[..n], room);
    }
  }

  /** The envelopes for `room` go to distinct users, none served before, and all are recorded. */
  ghost predicate Serves(before: set<string>, envs: seq<Envelope>, room: string, after: set<string>) {
    var to := RecipientsIn(envs, room);
    && (forall i, j | 0 <= i < j < |to| :: to[i] != to[j])
    && (forall m | m in to :: m !in before)
    && (forall m :: m in after <==> m in before || m in to)
  }

  lemma {:induction false} ServesCompose(s0: set<string>, a: seq<Envelope>, s1: set<string>, b: seq<Envelope>,
                                         s2: set<string>, room: string)
    requires Serves(s0, a, room, s1) && Serves(s1, b, room, s2)
    ensures Serves(s0, a + b, room, s2)
  {
    RecipientsConcat(a, b, room);
    var x, y := RecipientsIn(a, room), RecipientsIn(b, room);
    forall i, j | 0 <= i < j < |x + y| ensures (x + y)[i] != (x + y)[j] {
      if i < |x| <= j {
        assert x[i] in x && y[j - |x|] in y;
      }
    }
  }

  lemma {:induction false} ServesNobody(s: set<string>, envs: seq<Envelope>, room: string)
    requires forall e | e in envs :: e.room != room
    ensures Serves(s, envs, room, s)
    decreases |envs|
  {
    if envs != [] {
      assert envs[|envs| - 1] in envs;
      forall e | e in envs[..|envs| - 1] ensures e.room != room {
        assert e in envs;
      }
      ServesNobody(s, envs[..|envs| - 1], room);
    }
  }

  lemma {:induction false} ServesOne(s: set<string>, e: Envelope)
    requires e.recipient !in s
    ensures Serves(s, [e], e.room, s + {e.recipient})
  {
    assert [e][..0] == [];
    assert RecipientsIn([e][..0], e.room) == [];
    assert RecipientsIn([e], e.room) == [e.recipient];
  }

  lemma {:induction false} OfferAllServes(me: Self, room: string, st: RoomState, members: seq<string>, nonce: Nonce)
    ensures var (st', out) := OfferAll(me, room, st, members, nonce);
      Serves(st.distributed, out, room, st'.distributed) && forall e | e in out :: e.room == room
    decreases |members|
  {
    hide Serves, MakeEnvelope;
    if members == [] {
      ServesNobody(st.distributed, [], room);
    } else {
      var n := |members| - 1;
      OfferAllServes(me, room, st, members[..n], nonce);
      var (st1, out1) := OfferAll(me, room, st, members[..n], nonce);
      var (st2, out2) := Offer(me, room, st1, members[n], nonce);
      if out2 == [] {
        ServesNobody(st1.distributed, [], room);
      } else {
        MadeFor(me, room, st1, members[n], nonce);
        ServesOne(st1.distributed, out2[0]);
      }
      ServesCompose(st.distributed, out1, st1.distributed, out2, st2.distributed, room);
    }
  }

  /** Whether an envelope can be made depends on the keys only. */
  predicate CanServe(me: Self, st: RoomState, m: string) {
    && st.own.Some? && m in me.keys && IsKeyText(me.keys[m])
    && st.own.value.chain.Size() == KEY_BYTES && IsValidKeyId(st.own.value.keyId)
  }

  lemma {:induction false} MadeFor(me: Self, room: string, st: RoomState, m: string, nonce: Nonce)
    ensures MakeEnvelope(me, room, st, m, nonce).Some? <==> CanServe(me, st, m)
    ensures MakeEnvelope(me, room, st, m, nonce).Some? ==>
      var e := MakeEnvelope(me, room, st, m, nonce).value;
      && e.room == room && e.recipient == m && e.from == me.username
      && e.epoch == st.ownEpoch && e.keyId == st.own.value.keyId
  {
  }

  lemma {:induction false} RoomPassServes(me: Self, room: string, st: RoomState, user: Option<string>, nonce: Nonce)
    ensures var (st', out) := RoomPass(me, room, st, user, nonce);
      Serves(st.distributed, out, room, st'.distributed) && forall e | e in out :: e.room == room
  {
    hide Serves, MakeEnvelope, OfferAll;
    OfferAllServes(me, room, st, st.members, nonce);
    ServesNobody(st.distributed, [], room);
    if user.Some? {
      MadeFor(me, room, st, user.value, nonce);
      var out := RoomPass(me, room, st, user, nonce).1;
      if out != [] {
        ServesOne(st.distributed, out[0]);
      }
    }
  }

  lemma {:induction false} PassOverServes(c: Client, order: seq<string>, user: Option<string>, nonce: Nonce,
                                          room: string)
    requires room in c.rooms && forall r | r in order :: r in c.rooms
    ensures var (c', out) := PassOver(c, order, user, nonce);
      && c'.rooms.Keys == c.rooms.Keys
      && Serves(c.rooms[room].distributed, out, room, c'.rooms[room].distributed)
    decreases |order|
  {
    hide Serves, RoomPass;
    if order == [] {
      ServesNobody(c.rooms[room].distributed, [], room);
    } else {
      var n := |order| - 1;
      assert order[n] in order;
      PassOverServes(c, order[..n], user, nonce, room);
      var (c1, out1) := PassOver(c, order[..n], user, nonce);
      var (st, out2) := RoomPass(c.me, order[n], c1.rooms[order[n]], user, nonce);
      RoomPassServes(c.me, order[n], c1.rooms[order[n]], user, nonce);
      var s0, s1 := c.rooms[room].distributed, c1.rooms[room].distributed;
      if order[n] == room {
        ServesCompose(s0, out1, s1, out2, st.distributed, room);
      } else {
        ServesNobody(s1, out2, room);
        ServesCompose(s0, out1, s1, out2, s1, room);
      }
    }
  }

  /** The operations that forget who was served: leaving, and a sync that rotates or changes the members. */
  ghost predicate Clears(c: Client, op: Op, room: string) {
    || (op.LeaveOp? && op.room == room)
    || (op.SyncOp? && op.room == room && Enabled(c, op)
        && (Rotates(RoomOf(c, room), op.epoch) || RoomOf(c, room).members != op.members))
  }

  lemma {:induction false} PruneKeepsRest(st: RoomState)
    ensures Prune(st) == st.(peers := Prune(st).peers)
  {
  }

  lemma {:induction false} SyncServes(c: Client, op: Op)
    requires op.SyncOp? && Enabled(c, op)
    ensures var (c', out) := Step(c, op);
      && op.room in c'.rooms
      && (forall e | e in out :: e.room == op.room)
      && Serves(if Clears(c, op, op.room) then {} else RoomOf(c, op.room).distributed, out, op.room,
                c'.rooms[op.room].distributed)
  {
    hide Serves, OfferAll, Prune;
    var st := RoomOf(c, op.room);
    var mid := Synced(st, op.epoch, op.members, op.generated);
    PruneKeepsRest(SyncedBeforePruning(st, op.epoch, op.members, op.generated));
    OfferAllServes(c.me, op.room, mid, mid.members, op.nonce);
    ServesNobody(st.distributed, [], op.room);
  }

  lemma {:induction false} StepServes(c: Client, op: Op, room: string)
    requires room in c.rooms && !Clears(c, op, room)
    ensures var (c', out) := Step(c, op);
      room in c'.rooms && Serves(c.rooms[room].distributed, out, room, c'.rooms[room].distributed)
  {
    hide Serves, PassOver, Sync, Trust.See, Trust.Step, RoomCrypto.Open, RoomCrypto.Seal, UnwrapFor, IllFormed,
         AddChain;
    ServesNobody(c.rooms[room].distributed, [], room);
    if Enabled(c, op) {
      match op
      case SyncOp(r, _, _, _, _) =>
        SyncServes(c, op);
        if r != room {
          ServesNobody(c.rooms[room].distributed, Step(c, op).1, room);
        }
      case KeyOp(user, key, order, nonce) =>
        var trust := Trust.See(c.trust, user, key, "").0;
        PassOverServes(CacheKey(c.(trust := trust), user, key), order, Some(user), nonce, room);
      case TickOp(order, nonce) => PassOverServes(c, order, None, nonce, room);
      case _ =>
    }
  }

  ghost function Emitted(c: Client, ops: seq<Op>): seq<Envelope> {
    if ops == [] then []
    else
      var n := |ops| - 1;
      Emitted(c, ops[..n]) + Step(Exec(c, ops[..n]), ops[n]).1
  }

  ghost predicate NeverClears(c: Client, ops: seq<Op>, room: string) {
    forall i | 0 <= i < |ops| :: !Clears(Exec(c, ops[..i]), ops[i], room)
  }

  /** Between two clears no member of a room is ever sent our key twice, whatever else happens. */
  lemma {:induction false} AtMostOneEnvelope(c: Client, ops: seq<Op>, room: string)
    requires room in c.rooms && NeverClears(c, ops, room)
    ensures room in Exec(c, ops).rooms
    ensures Serves(c.rooms[room].distributed, Emitted(c, ops), room, Exec(c, ops).rooms[room].distributed)
    decreases |ops|
  {
    hide Serves, Step, Clears;
    if ops == [] {
      ServesNobody(c.rooms[room].distributed, [], room);
    } else {
      var n := |ops| - 1;
      ClearlessPrefix(c, ops, room);
      AtMostOneEnvelope(c, ops[..n], room);
      StepServes(Exec(c, ops[..n]), ops[n], room);
      ServesCompose(c.rooms[room].distributed, Emitted(c, ops[..n]), Exec(c, ops[..n]).rooms[room].distributed,
                    Step(Exec(c, ops[..n]), ops[n]).1, Exec(c, ops).rooms[room].distributed, room);
    }
  }

  /** A rotation together with everything up to the next clear sends at most one envelope per member. */
  lemma {:induction false} AtMostOneEnvelopePerEpoch(c: Client, sync: Op, ops: seq<Op>)
    requires sync.SyncOp? && Enabled(c, sync) && Clears(c, sync, sync.room)
    requires NeverClears(Step(c, sync).0, ops, sync.room)
    ensures var to := RecipientsIn(Step(c, sync).1 + Emitted(Step(c, sync).0, ops), sync.room);
      forall i, j | 0 <= i < j < |to| :: to[i] != to[j]
  {
    hide Step, Clears;
    SyncServes(c, sync);
    var c1 := Step(c, sync).0;
    AtMostOneEnvelope(c1, ops, sync.room);
    ServesCompose({}, Step(c, sync).1, c1.rooms[sync.room].distributed, Emitted(c1, ops),
                  Exec(c1, ops).rooms[sync.room].distributed, sync.room);
  }

  // ---- a tick serves everyone it can -----------------------------------------------------

  /** Nobody is left whom we could serve. */
  ghost predicate Settled(me: Self, st: RoomState) {
    forall m | m in st.members :: m == me.username || m in st.distributed || !CanServe(me, st, m)
  }

  lemma {:induction false} OfferAllSettles(me: Self, room: string, st: RoomState, members: seq<string>, nonce: Nonce)
    ensures var st' := OfferAll(me, room, st, members, nonce).0;
      forall m | m in members :: m == me.username || m in st'.distributed || !CanServe(me, st', m)
    decreases |members|
  {
    hide MakeEnvelope;
    if members != [] {
      var n := |members| - 1;
      OfferAllSettles(me, room, st, members[..n], nonce);
      var st1 := OfferAll(me, room, st, members[..n], nonce).0;
      MadeFor(me, room, st1, members[n], nonce);
      assert members == members[..n] + [members[n]];
    }
  }

  lemma {:induction false} SettledOffersNothing(me: Self, room: string, st: RoomState, members: seq<string>,
                                                nonce: Nonce)
    requires Settled(me, st) && forall m | m in members :: m in st.members
    ensures OfferAll(me, room, st, members, nonce) == (st, [])
    decreases |members|
  {
    hide MakeEnvelope;
    if members != [] {
      var n := |members| - 1;
      assert members[n] in members;
      SettledOffersNothing(me, room, st, members[..n], nonce);
      MadeFor(me, room, st, members[n], nonce);
      var none: seq<Envelope> := [];
      assert none + none == none;
    }
  }

  ghost predicate RoomSettled(me: Self, st: RoomState) {
    st.own.Some? ==> Settled(me, st)
  }

  lemma {:induction false} TickRoomSettles(me: Self, room: string, st: RoomState, nonce: Nonce)
    ensures RoomSettled(me, TickRoom(me, room, st, nonce).0)
    ensures RoomSettled(me, st) ==> TickRoom(me, room, st, nonce) == (st, [])
  {
    hide OfferAll;
    OfferAllKeeps(me, room, st, st.members, nonce);
    OfferAllSettles(me, room, st, st.members, nonce);
    if st.own.Some? && Settled(me, st) {
      SettledOffersNothing(me, room, st, st.members, nonce);
    }
  }

  lemma {:induction false} TickSettles(c: Client, order: seq<string>, nonce: Nonce)
    requires forall r | r in order :: r in c.rooms
    ensures var c' := PassOver(c, order, None, nonce).0;
      && c'.me == c.me && c'.rooms.Keys == c.rooms.Keys
      && forall r | r in order :: RoomSettled(c.me, c'.rooms[r])
    decreases |order|
  {
    hide TickRoom, RoomSettled;
    if order != [] {
      var n := |order| - 1;
      assert order[n] in order;
      TickSettles(c, order[..n], nonce);
      TickRoomSettles(c.me, order[n], PassOver(c, order[..n], None, nonce).0.rooms[order[n]], nonce);
      assert order == order[..n] + [order[n]];
    }
  }

  lemma {:induction false} SettledTickIsSilent(c: Client, order: seq<string>, nonce: Nonce)
    requires forall r | r in order :: r in c.rooms && RoomSettled(c.me, c.rooms[r])
    ensures PassOver(c, order, None, nonce) == (c, [])
    decreases |order|
  {
    hide TickRoom, RoomSettled;
    if order != [] {
      var n := |order| - 1;
      assert order[n] in order;
      SettledTickIsSilent(c, order[..n], nonce);
      TickRoomSettles(c.me, order[n], c.rooms[order[n]], nonce);
      assert c.rooms[order[n] := c.rooms[order[n]]] == c.rooms;
      var none: seq<Envelope> := [];
      assert none + none == none;
    }
  }

  /**
   After a tick every other member whose usable box key is cached has been sent our key, and a
   second tick (in any order) sends nothing and changes nothing.
   */
  lemma {:induction false} TickServesEveryone(c: Client, order: seq<string>, again: seq<string>, nonce: Nonce,
                                              nonce': Nonce)
    requires ClientOk(c) && IsOrder(c, order) && IsOrder(c, again)
    ensures var c' := PassOver(c, order, None, nonce).0;
      && (forall r, m | r in c'.rooms && c'.rooms[r].own.Some? && m in c'.rooms[r].members
                        && m != c.me.username && m in c.me.keys && IsKeyText(c.me.keys[m]) ::
            m in c'.rooms[r].distributed)
      && IsOrder(c', again)
      && PassOver(c', again, None, nonce') == (c', [])
  {
    hide PassOver, ListOk;
    TickSettles(c, order, nonce);
    PassOverOk(c, order, None, nonce);
    var c' := PassOver(c, order, None, nonce).0;
    SettledTickIsSilent(c', again, nonce');
  }

  // ---- exactly once ----------------------------------------------------------------------

  /** An own key is given up only by leaving the room. */
  lemma {:induction false} StepKeepsOwn(c: Client, op: Op, room: string)
    requires room in c.rooms && c.rooms[room].own.Some? && !Clears(c, op, room)
    ensures room in Step(c, op).0.rooms && Step(c, op).0.rooms[room].own.Some?
  {
    hide PassOver, OfferAll, Prune, RoomCrypto.Open, RoomCrypto.Seal, UnwrapFor, IllFormed, AddChain, FindChain;
    if Enabled(c, op) {
      match op
      case SyncOp(r, epoch, members, generated, nonce) =>
        var mid := Synced(RoomOf(c, r), epoch, members, generated);
        OfferAllKeeps(c.me, r, mid, mid.members, nonce);
        PruneKeepsRest(SyncedBeforePruning(RoomOf(c, r), epoch, members, generated));
      case KeyOp(user, key, order, nonce) =>
        var trust := Trust.See(c.trust, user, key, "").0;
        PassChangesServedOnly(CacheKey(c.(trust := trust), user, key), order, Some(user), nonce, room);
      case TickOp(order, nonce) => PassChangesServedOnly(c, order, None, nonce, room);
      case _ =>
    }
  }

  lemma {:induction false} RunKeepsOwn(c: Client, ops: seq<Op>, room: string)
    requires room in c.rooms && c.rooms[room].own.Some? && NeverClears(c, ops, room)
    ensures room in Exec(c, ops).rooms && Exec(c, ops).rooms[room].own.Some?
    decreases |ops|
  {
    hide Step, Clears;
    if ops != [] {
      var n := |ops| - 1;
      ClearlessPrefix(c, ops, room);
      RunKeepsOwn(c, ops[..n], room);
      StepKeepsOwn(Exec(c, ops[..n]), ops[n], room);
    }
  }

  lemma {:induction false} ClearlessPrefix(c: Client, ops: seq<Op>, room: string)
    requires ops != [] && NeverClears(c, ops, room)
    ensures NeverClears(c, ops[..|ops| - 1], room)
  {
    hide Clears, Exec;
    var n := |ops| - 1;
    forall i | 0 <= i < n ensures !Clears(Exec(c, ops[..n][..i]), ops[..n][i], room) {
      assert ops[..n][..i] == ops[..i];
    }
  }

  lemma {:induction false} OccursOnce(list: seq<string>, m: string)
    requires m in list && forall i, j | 0 <= i < j < |list| :: list[i] != list[j]
    ensures multiset(list)[m] == 1
    decreases |list|
  {
    var n := |list| - 1;
    assert list == list[..n] + [list[n]];
    if list[n] == m {
      assert m !in list[..n];
    } else {
      OccursOnce(list[..n], m);
    }
  }

  /**
   Exactly once: from a sync that rotates or changes the members, through any run without another
   such sync, up to a tick, every other member with a usable cached key is sent our key exactly once.
   */
  lemma {:induction false} ExactlyOneEnvelope(c: Client, sync: Op, ops: seq<Op>, order: seq<string>, nonce: Nonce,
                                              m: string)
    requires ClientOk(c) && sync.SyncOp? && Enabled(c, sync) && Clears(c, sync, sync.room)
    requires var c1 := Step(c, sync).0; var c2 := Exec(c1, ops);
      && NeverClears(c1, ops, sync.room) && IsOrder(c2, order)
      && sync.room in c2.rooms && m in c2.rooms[sync.room].members && m != c2.me.username
      && m in c2.me.keys && IsKeyText(c2.me.keys[m])
    ensures var c1 := Step(c, sync).0;
      var sent := Step(c, sync).1 + Emitted(c1, ops + [TickOp(order, nonce)]);
      multiset(RecipientsIn(sent, sync.room))[m] == 1
  {
    hide Step, Clears, ClientOk, IsOrder, RecipientsIn;
    var c1 := Step(c, sync).0;
    var c2 := Exec(c1, ops);
    var tick := TickOp(order, nonce);
    var all := ops + [tick];
    StepOk(c, sync);
    RunOk(c1, ops);
    SyncGivesOwn(c, sync);
    RunKeepsOwn(c1, ops, sync.room);
    assert all[..|ops|] == ops;
    TickClearsNothing(c1, ops, tick, sync.room);
    AtMostOneEnvelopePerEpoch(c, sync, all);
    SyncServes(c, sync);
    AtMostOneEnvelope(c1, all, sync.room);
    TickStep(c2, order, nonce);
    TickServesEveryone(c2, order, order, nonce, nonce);
    TickKeepsMembers(c2, order, nonce, sync.room);
    ServesCompose({}, Step(c, sync).1, c1.rooms[sync.room].distributed, Emitted(c1, all),
                  Exec(c1, all).rooms[sync.room].distributed, sync.room);
    OccursOnce(RecipientsIn(Step(c, sync).1 + Emitted(c1, all), sync.room), m);
  }

  lemma {:induction false} TickStep(c: Client, order: seq<string>, nonce: Nonce)
    requires IsOrder(c, order)
    ensures Step(c, TickOp(order, nonce)).0 == PassOver(c, order, None, nonce).0
  {
  }

  lemma {:induction false} TickKeepsMembers(c: Client, order: seq<string>, nonce: Nonce, room: string)
    requires IsOrder(c, order) && room in c.rooms
    ensures var c' := PassOver(c, order, None, nonce).0;
      room in c'.rooms && c'.rooms[room].members == c.rooms[room].members && c'.rooms[room].own == c.rooms[room].own
  {
    hide PassOver;
    PassChangesServedOnly(c, order, None, nonce, room);
  }

  lemma {:induction false} SyncGivesOwn(c: Client, sync: Op)
    requires sync.SyncOp? && Enabled(c, sync)
    ensures var c' := Step(c, sync).0; sync.room in c'.rooms && c'.rooms[sync.room].own.Some?
  {
    hide OfferAll, Prune;
    var st := RoomOf(c, sync.room);
    var mid := Synced(st, sync.epoch, sync.members, sync.generated);
    OfferAllKeeps(c.me, sync.room, mid, mid.members, sync.nonce);
    PruneKeepsRest(SyncedBeforePruning(st, sync.epoch, sync.members, sync.generated));
  }

  lemma {:induction false} TickClearsNothing(c: Client, ops: seq<Op>, tick: Op, room: string)
    requires NeverClears(c, ops, room) && tick.TickOp?
    ensures NeverClears(c, ops + [tick], room)
  {
    hide Exec;
    var all := ops + [tick];
    forall i | 0 <= i < |all| ensures !Clears(Exec(c, all[..i]), all[i], room) {
      if i < |ops| {
        assert all[..i] == ops[..i];
      }
    }
  }

  // ---- replay safety ---------------------------------------------------------------------

  /** One sender chain: room, sender, epoch and key id. */
  datatype Entry = Entry(room: string, sender: string, epoch: Uint64, keyId: string) {
    predicate In(c: Client) {
      HasChain(c, room, sender, epoch, keyId)
    }

    function Chain(c: Client): Inbound
      requires In(c)
    {
      ChainOf(c, room, sender, epoch, keyId)
    }
  }

  lemma {:induction false} FindUnique(chains: seq<PeerChain>, i: nat)
    requires ChainsOk(chains) && i < |chains|
    ensures FindChain(chains, chains[i].epoch, chains[i].keyId) == i
  {
    hide ChainOk;
    var j := FindChain(chains, chains[i].epoch, chains[i].keyId);
    assert j <= i && !Distinct(chains[j], chains[i]);
  }

  /** A list whose chains all come from a well-formed list finds the same chain, if it finds one. */
  lemma {:induction false} FindInSublist(chains: seq<PeerChain>, sub: seq<PeerChain>, epoch: Uint64, keyId: string)
    requires ChainsOk(chains) && forall x | x in sub :: x in chains
    requires FindChain(sub, epoch, keyId) < |sub|
    ensures FindChain(chains, epoch, keyId) < |chains|
    ensures sub[FindChain(sub, epoch, keyId)] == chains[FindChain(chains, epoch, keyId)]
  {
    hide ChainsOk;
    var x := sub[FindChain(sub, epoch, keyId)];
    assert x in sub;
    var i: nat :| i < |chains| && chains[i] == x;
    FindUnique(chains, i);
  }

  lemma {:induction false} SurvivingFromList(epoch: Uint64, chains: seq<PeerChain>)
    ensures forall x | x in Surviving(epoch, chains) :: x in chains
  {
    var keep := SurvivingSelects(epoch, chains);
  }

  lemma {:induction false} SyncKeepsChain(c: Client, op: Op, e: Entry)
    requires ClientOk(c) && op.SyncOp? && Enabled(c, op)
    requires e.In(Step(c, op).0)
    ensures e.In(c) && e.Chain(Step(c, op).0) == e.Chain(c)
  {
    hide OfferAll, ListOk, FindChain, Surviving;
    if op.room == e.room {
      var st := RoomOf(c, op.room);
      EmptyRoomOk();
      var mid := Synced(st, op.epoch, op.members, op.generated);
      OfferAllKeeps(c.me, op.room, mid, mid.members, op.nonce);
      var chains, sub := st.peers[e.sender], mid.peers[e.sender];
      ListParts(chains);
      SurvivingFromList(op.epoch, chains);
      FindInSublist(chains, sub, e.epoch, e.keyId);
    }
  }

  lemma {:induction false} ListParts(chains: seq<PeerChain>)
    requires ListOk(chains)
    ensures ChainsOk(chains)
  {
  }

  /** Adding a chain does not disturb the others that stay. */
  lemma {:induction false} AddKeepsOthers(chains: seq<PeerChain>, added: PeerChain, epoch: Uint64, keyId: string)
    requires ListOk(chains) && FindChain(chains, added.epoch, added.keyId) == |chains|
    requires FindChain(chains, epoch, keyId) < |chains|
    requires var all := Newest(chains, MAX_CHAINS_PER_PEER - 1) + [added]; FindChain(all, epoch, keyId) < |all|
    ensures var all := Newest(chains, MAX_CHAINS_PER_PEER - 1) + [added];
      all[FindChain(all, epoch, keyId)] == chains[FindChain(chains, epoch, keyId)]
  {
    hide FindChain, ChainsOk;
    var kept := Newest(chains, MAX_CHAINS_PER_PEER - 1);
    var all := kept + [added];
    assert all[..|kept|] == kept;
    FindInSublist(chains, kept, epoch, keyId);
  }

  lemma {:induction false} EnvelopeKeepsChain(c: Client, frame: Option<Envelope>, e: Entry)
    requires ClientOk(c) && e.In(c) && e.In(ProcessEnvelope(c, frame).0)
    ensures e.Chain(ProcessEnvelope(c, frame).0) == e.Chain(c)
  {
    hide ListOk, Trust.See, IllFormed, UnwrapFor, Newest, FindChain;
    if frame.Some? && frame.value.room == e.room && frame.value.from == e.sender && UnwrapFor(c.me, frame.value).Some? {
      var env := frame.value;
      var chains := c.rooms[e.room].peers[e.sender];
      assert RoomOk(c.rooms[e.room]);
      var added := PeerChain(env.epoch, env.keyId, FreshInbound(UnwrapFor(c.me, env).value.chainKey));
      if ProcessEnvelope(c, frame).0.rooms[e.room].peers[e.sender] != chains {
        AddKeepsOthers(chains, added, e.epoch, e.keyId);
      }
    }
  }

  ghost predicate OpensEntry(op: Op, e: Entry) {
    && op.OpenOp? && op.room == e.room && op.sender == e.sender && op.payload.Some?
    && op.payload.value.epoch == e.epoch && op.payload.value.keyId == e.keyId
  }

  /** Every opened index stays away from the end of the 32-bit range. */
  ghost predicate BelowWrap(op: Op) {
    op.OpenOp? && op.payload.Some? && op.payload.value.index >= 0 ==> Narrow(op.payload.value.index) + 1 < TWO_32
  }

  lemma {:induction false} OpenMovesOneChain(c: Client, room: string, sender: string, payload: Option<Payload>,
                                             e: Entry)
    requires e.In(c)
    ensures e.In(Open(c, room, sender, payload).0)
    ensures !OpensEntry(OpenOp(room, sender, payload), e) || Open(c, room, sender, payload).1.None?
            ==> e.Chain(Open(c, room, sender, payload).0) == e.Chain(c)
    ensures OpensEntry(OpenOp(room, sender, payload), e) && Open(c, room, sender, payload).1.Some? ==>
      && payload.value.index >= 0 && sender in c.trust.pins.users
      && (e.Chain(Open(c, room, sender, payload).0), Open(c, room, sender, payload).1)
         == RoomCrypto.Open(e.Chain(c), MessageOf(payload.value), room, sender, c.trust.pins.users[sender].ed)
  {
    hide RoomCrypto.Open, RoomOk;
    if room == e.room && sender == e.sender && Open(c, room, sender, payload).1.Some? {
      var p := payload.value;
      var chains := c.rooms[room].peers[sender];
      var i := FindChain(chains, p.epoch, p.keyId);
      var k := RoomCrypto.Open(chains[i].chain, MessageOf(p), room, sender, c.trust.pins.users[sender].ed).0;
      UpdateFind(chains, i, k, e.epoch, e.keyId);
    }
  }

  lemma {:induction false} UpdateFind(chains: seq<PeerChain>, i: nat, k: Inbound, epoch: Uint64, keyId: string)
    requires i < |chains|
    ensures FindChain(chains[i := chains[i].(chain := k)], epoch, keyId) == FindChain(chains, epoch, keyId)
  {
    var chains' := chains[i := chains[i].(chain := k)];
    var a, b := FindChain(chains, epoch, keyId), FindChain(chains', epoch, keyId);
    assert forall j | 0 <= j < |chains| :: chains'[j].epoch == chains[j].epoch && chains'[j].keyId == chains[j].keyId;
  }

  lemma {:induction false} PassChangesServedOnly(c: Client, order: seq<string>, user: Option<string>, nonce: Nonce,
                                          room: string)
    requires forall r | r in order :: r in c.rooms
    ensures var c' := PassOver(c, order, user, nonce).0;
      && c'.rooms.Keys == c.rooms.Keys
      && (room in c.rooms ==> c'.rooms[room] == c.rooms[room].(distributed := c'.rooms[room].distributed))
    decreases |order|
  {
    hide OfferAll, MakeEnvelope;
    if order != [] {
      var n := |order| - 1;
      assert order[n] in order;
      PassChangesServedOnly(c, order[..n], user, nonce, room);
      PassChangesServedOnly(c, order[..n], user, nonce, order[n]);
      var st := PassOver(c, order[..n], user, nonce).0.rooms[order[n]];
      OfferAllKeeps(c.me, order[n], st, st.members, nonce);
    }
  }

  /** A step that retains an entry moves its chain only by opening a message on it. */
  lemma {:induction false} StepKeepsChain(c: Client, op: Op, e: Entry)
    requires ClientOk(c) && e.In(c) && e.In(Step(c, op).0)
    requires OpensEntry(op, e) ==> Open(c, e.room, e.sender, op.payload).1.None?
    ensures e.Chain(Step(c, op).0) == e.Chain(c)
  {
    hide PassOver, Sync, Open, ProcessEnvelope, ClientOk, FindChain, Trust.See, Trust.Step, RoomCrypto.Seal;
    if Enabled(c, op) {
      match op
      case SyncOp(_, _, _, _, _) => SyncKeepsChain(c, op, e);
      case KeyOp(user, key, order, nonce) =>
        var trust := Trust.See(c.trust, user, key, "").0;
        PassChangesServedOnly(CacheKey(c.(trust := trust), user, key), order, Some(user), nonce, e.room);
      case TickOp(order, nonce) => PassChangesServedOnly(c, order, None, nonce, e.room);
      case EnvelopeOp(frame) => EnvelopeKeepsChain(c, frame, e);
      case OpenOp(room, sender, payload) => OpenMovesOneChain(c, room, sender, payload, e);
      case _ =>
    }
  }

  /** As long as an entry survives a step, an index consumed on its chain stays consumed. */
  lemma {:induction false} StepKeepsConsumed(c: Client, op: Op, e: Entry, index: Uint32)
    requires ClientOk(c) && BelowWrap(op) && e.In(c) && e.In(Step(c, op).0)
    requires Orderly(e.Chain(c)) && Consumed(e.Chain(c), index)
    ensures Orderly(e.Chain(Step(c, op).0)) && Consumed(e.Chain(Step(c, op).0), index)
  {
    hide PassOver, Sync, Open, ProcessEnvelope, ClientOk, HasChain, ChainOf, Orderly, Consumed, RoomCrypto.Open;
    if OpensEntry(op, e) && Open(c, e.room, e.sender, op.payload).1.Some? {
      OpenMovesOneChain(c, e.room, e.sender, op.payload, e);
      RoomDelivery.OpenConsumes(e.Chain(c), MessageOf(op.payload.value), e.room, e.sender,
                                c.trust.pins.users[e.sender].ed, index);
    } else {
      StepKeepsChain(c, op, e);
    }
  }

  /** The entry is present in every state of the run. */
  ghost predicate Retained(c: Client, ops: seq<Op>, e: Entry) {
    forall i | 0 <= i <= |ops| :: e.In(Exec(c, ops[..i]))
  }

  lemma {:induction false} RunKeepsConsumed(c: Client, ops: seq<Op>, e: Entry, index: Uint32)
    requires ClientOk(c) && Retained(c, ops, e) && forall op | op in ops :: BelowWrap(op)
    requires e.In(c) && Orderly(e.Chain(c)) && Consumed(e.Chain(c), index)
    ensures e.In(Exec(c, ops)) && Orderly(e.Chain(Exec(c, ops))) && Consumed(e.Chain(Exec(c, ops)), index)
    ensures ClientOk(Exec(c, ops))
    decreases |ops|
  {
    hide Step, ClientOk, BelowWrap, Orderly, Consumed, HasChain;
    assert ops[..|ops|] == ops;
    RunOk(c, ops);
    if ops != [] {
      var n := |ops| - 1;
      forall i | 0 <= i <= n ensures e.In(Exec(c, ops[..n][..i])) {
        assert ops[..n][..i] == ops[..i];
      }
      assert ops[n] in ops;
      forall op | op in ops[..n] ensures BelowWrap(op) {
        assert op in ops;
      }
      RunKeepsConsumed(c, ops[..n], e, index);
      StepKeepsConsumed(Exec(c, ops[..n]), ops[n], e, index);
    }
  }

  /**
   Once a message has been opened, no run of syncs, envelopes (also duplicates), opens and all
   other operations that retains the chain lets the same index of that chain be opened again.
   */
  lemma {:induction false} ReplayRefused(c: Client, e: Entry, first: Payload, ops: seq<Op>, replay: Payload)
    requires ClientOk(c) && e.In(c) && Orderly(e.Chain(c))
    requires OpensEntry(OpenOp(e.room, e.sender, Some(first)), e)
    requires OpensEntry(OpenOp(e.room, e.sender, Some(replay)), e)
    requires Open(c, e.room, e.sender, Some(first)).1.Some?
    requires first.index >= 0 && replay.index >= 0 && Narrow(first.index) == Narrow(replay.index) < TWO_32 - 1
    requires Retained(Open(c, e.room, e.sender, Some(first)).0, ops, e) && forall op | op in ops :: BelowWrap(op)
    ensures Open(Exec(Open(c, e.room, e.sender, Some(first)).0, ops), e.room, e.sender, Some(replay)).1.None?
  {
    hide Open, HasChain, ClientOk, Orderly, Consumed, BelowWrap, Exec;
    OpenMovesOneChain(c, e.room, e.sender, Some(first), e);
    RoomDelivery.OpenConsumes(e.Chain(c), MessageOf(first), e.room, e.sender, c.trust.pins.users[e.sender].ed, 0);
    var c1 := Open(c, e.room, e.sender, Some(first)).0;
    OpenOk(c, e.room, e.sender, Some(first));
    RunKeepsConsumed(c1, ops, e, Narrow(first.index));
    var c2 := Exec(c1, ops);
    OpenMovesOneChain(c2, e.room, e.sender, Some(replay), e);
    if Open(c2, e.room, e.sender, Some(replay)).1.Some? {
      RoomDelivery.OpenConsumes(e.Chain(c2), MessageOf(replay), e.room, e.sender, c2.trust.pins.users[e.sender].ed,
                                Narrow(first.index));
    }
  }

  /**
   Retention is what replay safety rests on: a well-formed envelope from a trusted sender for a
   chain that is not held starts that chain again from position zero, whatever was opened before.
   */
  lemma {:induction false} ForgottenChainRestarts(c: Client, env: Envelope)
    requires ClientOk(c) && !IllFormed(c.me, env) && UnwrapFor(c.me, env).Some?
    requires Trust.See(c.trust, env.from, env.wrapped.senderX, env.wrapped.senderEd).1 != Trust.CHANGED
    ensures var e := Entry(env.room, env.from, env.epoch, env.keyId);
      var (c', status) := ProcessEnvelope(c, Some(env));
      && status == OK && e.In(c')
      && e.Chain(c') == if e.In(c) then e.Chain(c) else FreshInbound(UnwrapFor(c.me, env).value.chainKey)
  {
    hide UnwrapFor, Trust.See, ListOk;
    var st := RoomOf(c, env.room);
    var chains := if env.from in st.peers then st.peers[env.from] else [];
    if FindChain(chains, env.epoch, env.keyId) == |chains| {
      var kept := Newest(chains, MAX_CHAINS_PER_PEER - 1);
      var added := ProcessEnvelope(c, Some(env)).0.rooms[env.room].peers[env.from];
      assert added[|kept|].epoch == env.epoch && added[|kept|].keyId == env.keyId;
      forall j | 0 <= j < |kept| ensures added[j].epoch != env.epoch || added[j].keyId != env.keyId {
        assert added[j] in chains;
      }
      assert FindChain(added, env.epoch, env.keyId) == |kept|;
    }
  }
}
