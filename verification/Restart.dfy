/** A restart in the middle of a run: what the reloaded client answers is what the old one would have. */
module Restart {
  import opened Prelude
  import opened Ratchet
  import opened GroupManager
  import opened GroupInvariant
  import opened GroupTrust
  import opened Persistence
  import EpochProtocol
  import RoomCrypto
  import Trust = TrustStore

  /**
   The client of a fresh manager after `load`. The identity comes from its own file; `keys` is
   whatever the key cache holds, and the pending key changes start empty.
   */
  function Reloaded(me: Self, keys: map<string, string>, rooms: File, pins: File): Client {
    Client(me.(keys := keys), Trust.Session(Trust.Pins(LoadTrust(map[], pins).0, {}), map[]), LoadFile(map[], rooms).0)
  }

  /** What the caller of an operation learns. */
  datatype Answer =
    | Silent
    | Opened(text: Option<Bytes>)
    | Sealed(message: Option<SealedMessage>)
    | Received(status: EnvelopeStatus)
    | Shown(trust: Trust.TrustStatus)
    | Done(ok: bool)

  function AnswerOf(c: Client, op: Op): Answer {
    match op
    case OpenOp(room, sender, payload) => Opened(Open(c, room, sender, payload).1)
    case SealOp(room, plaintext, nonce) => Sealed(Seal(c, room, plaintext, nonce).1)
    case EnvelopeOp(frame) => Received(ProcessEnvelope(c, frame).1)
    case KeyOp(user, key, _, _) => Shown(Trust.See(c.trust, user, key, "").1)
    case DirectOp(user, key, _) => Shown(Trust.See(c.trust, user, key, "").1)
    case TrustOp(Accepted(user)) => Done(Trust.AcceptPeerKey(c.trust, user).1)
    case TrustOp(Marked(user, verified)) => Done(Trust.MarkVerified(c.trust.pins, user, verified).1)
    case _ => Silent
  }

  ghost function AnswersAlong(c: Client, ops: seq<Op>): seq<Answer> {
    if ops == [] then []
    else
      var n := |ops| - 1;
      AnswersAlong(c, ops[..n]) + [AnswerOf(Exec(c, ops[..n]), ops[n])]
  }

  /** Two room states that may differ in who is recorded as served. */
  predicate SameRoom(st: RoomState, st': RoomState) {
    st' == st.(distributed := st'.distributed)
  }

  /** The same candidates are recorded, except perhaps for the users in `stale`. */
  ghost predicate SameCandidates(s: Trust.Session, s': Trust.Session, stale: iset<string>) {
    forall u | u !in stale ::
      (u in s.changed <==> u in s'.changed) && (u in s.changed ==> s'.changed[u] == s.changed[u])
  }

  ghost predicate SameTrust(s: Trust.Session, s': Trust.Session, stale: iset<string>) {
    s'.pins.users == s.pins.users && SameCandidates(s, s', stale)
  }

  /** Two clients with the same identity, pins and chains, and the same candidates outside `stale`. */
  ghost predicate Alike(c: Client, c': Client, stale: iset<string>) {
    && c'.me == c.me.(keys := c'.me.keys) && SameTrust(c.trust, c'.trust, stale)
    && c'.rooms.Keys == c.rooms.Keys && forall r | r in c.rooms :: SameRoom(c.rooms[r], c'.rooms[r])
  }

  // ---- every operation keeps two clients alike -------------------------------------------

  lemma {:induction false} SeeAlike(s: Trust.Session, s': Trust.Session, stale: iset<string>, user: string, x: string,
                                    ed: string)
    requires SameTrust(s, s', stale)
    ensures Trust.See(s', user, x, ed).1 == Trust.See(s, user, x, ed).1
    ensures SameTrust(Trust.See(s, user, x, ed).0, Trust.See(s', user, x, ed).0, stale)
  {
  }

  /** The user accepts a candidate of someone in `stale`. */
  predicate AcceptsOneOf(op: Op, stale: iset<string>) {
    op.TrustOp? && op.event.Accepted? && op.event.user in stale
  }

  lemma {:induction false} TrustAlike(s: Trust.Session, s': Trust.Session, stale: iset<string>, e: Trust.Event)
    requires SameTrust(s, s', stale) && !AcceptsOneOf(TrustOp(e), stale)
    ensures SameTrust(Trust.Step(s, e), Trust.Step(s', e), stale)
    ensures e.Accepted? ==> Trust.AcceptPeerKey(s', e.user).1 == Trust.AcceptPeerKey(s, e.user).1
  {
    if e.Seen? {
      SeeAlike(s, s', stale, e.user, e.x, e.ed);
    }
  }

  lemma {:induction false} SyncIsSynced(me: Self, room: string, st: RoomState, epoch: Uint64, members: seq<string>,
                                        generated: Outbound, nonce: Nonce)
    ensures SameRoom(Synced(st, epoch, members, generated), Sync(me, room, st, epoch, members, generated, nonce).0)
  {
    hide OfferAll, Prune;
    var mid := Synced(st, epoch, members, generated);
    OfferAllKeeps(me, room, mid, mid.members, nonce);
  }

  lemma {:induction false} SyncedAlike(st: RoomState, st': RoomState, epoch: Uint64, members: seq<string>,
                                       generated: Outbound)
    requires SameRoom(st, st')
    ensures SameRoom(Synced(st, epoch, members, generated), Synced(st', epoch, members, generated))
  {
    hide PrunedChains;
  }

  lemma {:induction false} SyncAlike(c: Client, c': Client, stale: iset<string>, op: Op)
    requires Alike(c, c', stale) && op.SyncOp? && Enabled(c, op)
    ensures Alike(Step(c, op).0, Step(c', op).0, stale)
  {
    hide Sync, Synced, SameTrust;
    var st, st' := RoomOf(c, op.room), RoomOf(c', op.room);
    assert SameRoom(st, st');
    SyncIsSynced(c.me, op.room, st, op.epoch, op.members, op.generated, op.nonce);
    SyncIsSynced(c'.me, op.room, st', op.epoch, op.members, op.generated, op.nonce);
    SyncedAlike(st, st', op.epoch, op.members, op.generated);
  }

  lemma {:induction false} PassAlike(c: Client, c': Client, stale: iset<string>, order: seq<string>,
                                     user: Option<string>, nonce: Nonce)
    requires Alike(c, c', stale) && forall r | r in order :: r in c.rooms
    ensures Alike(c, PassOver(c', order, user, nonce).0, stale)
    ensures Alike(PassOver(c, order, user, nonce).0, c', stale)
  {
    hide PassOver, SameTrust;
    EpochProtocol.PassOverMakes(c, order, user, nonce);
    EpochProtocol.PassOverMakes(c', order, user, nonce);
    PassKeepsTrust(c, order, user, nonce);
    PassKeepsTrust(c', order, user, nonce);
  }

  lemma {:induction false} CacheAlike(c: Client, c': Client, stale: iset<string>, user: string, key: string)
    requires Alike(c, c', stale)
    ensures var d := c.(trust := Trust.See(c.trust, user, key, "").0);
      var d' := c'.(trust := Trust.See(c'.trust, user, key, "").0);
      Alike(d, d', stale) && Alike(CacheKey(d, user, key), CacheKey(d', user, key), stale)
  {
    hide Trust.See, SameTrust, SameRoom;
    SeeAlike(c.trust, c'.trust, stale, user, key, "");
  }

  lemma {:induction false} BothPass(c: Client, c': Client, stale: iset<string>, order: seq<string>,
                                    user: Option<string>, nonce: Nonce)
    requires Alike(c, c', stale) && forall r | r in order :: r in c.rooms
    ensures forall r | r in order :: r in c'.rooms
    ensures Alike(PassOver(c, order, user, nonce).0, PassOver(c', order, user, nonce).0, stale)
  {
    hide PassOver, SameRoom, SameTrust;
    PassAlike(c, c', stale, order, user, nonce);
    PassAlike(c, PassOver(c', order, user, nonce).0, stale, order, user, nonce);
  }

  lemma {:induction false} KeyAlike(c: Client, c': Client, stale: iset<string>, op: Op)
    requires Alike(c, c', stale) && op.KeyOp? && Enabled(c, op) && Enabled(c', op)
    ensures Alike(Step(c, op).0, Step(c', op).0, stale)
  {
    hide Alike, PassOver, Trust.See;
    CacheAlike(c, c', stale, op.user, op.key);
    SameStatus(c, c', stale, op.user, op.key);
    var d := CacheKey(c.(trust := Trust.See(c.trust, op.user, op.key, "").0), op.user, op.key);
    var d' := CacheKey(c'.(trust := Trust.See(c'.trust, op.user, op.key, "").0), op.user, op.key);
    BothPass(d, d', stale, op.order, Some(op.user), op.nonce);
  }

  lemma {:induction false} SameStatus(c: Client, c': Client, stale: iset<string>, user: string, key: string)
    requires Alike(c, c', stale)
    ensures Trust.See(c'.trust, user, key, "").1 == Trust.See(c.trust, user, key, "").1
  {
    SeeAlike(c.trust, c'.trust, stale, user, key, "");
  }

  lemma {:induction false} EnvelopeAlike(c: Client, c': Client, stale: iset<string>, frame: Option<Envelope>)
    requires Alike(c, c', stale)
    ensures ProcessEnvelope(c', frame).1 == ProcessEnvelope(c, frame).1
    ensures Alike(ProcessEnvelope(c, frame).0, ProcessEnvelope(c', frame).0, stale)
  {
    hide Trust.See, SameTrust, RoomCrypto.Unwrap, AddChain, FindChain, HasEmptyField;
    if frame.Some? {
      var e := frame.value;
      SeeAlike(c.trust, c'.trust, stale, e.from, e.wrapped.senderX, e.wrapped.senderEd);
      assert SameRoom(RoomOf(c, e.room), RoomOf(c', e.room));
    }
  }

  lemma {:induction false} OpenAlike(c: Client, c': Client, stale: iset<string>, room: string, sender: string,
                                     payload: Option<Payload>)
    requires Alike(c, c', stale)
    ensures Open(c', room, sender, payload).1 == Open(c, room, sender, payload).1
    ensures Alike(Open(c, room, sender, payload).0, Open(c', room, sender, payload).0, stale)
  {
    hide RoomCrypto.Open, SameCandidates;
    assert room in c.rooms ==> SameRoom(c.rooms[room], c'.rooms[room]);
  }

  lemma {:induction false} SealAlike(c: Client, c': Client, stale: iset<string>, room: string, plaintext: Bytes,
                                     nonce: Nonce)
    requires Alike(c, c', stale)
    ensures Seal(c', room, plaintext, nonce).1 == Seal(c, room, plaintext, nonce).1
    ensures Alike(Seal(c, room, plaintext, nonce).0, Seal(c', room, plaintext, nonce).0, stale)
  {
    hide RoomCrypto.Seal, SameCandidates;
    assert room in c.rooms ==> SameRoom(c.rooms[room], c'.rooms[room]);
  }

  lemma {:induction false} StepAlike(c: Client, c': Client, stale: iset<string>, op: Op)
    requires Alike(c, c', stale) && !AcceptsOneOf(op, stale)
    ensures AnswerOf(c', op) == AnswerOf(c, op)
    ensures Alike(Step(c, op).0, Step(c', op).0, stale)
  {
    hide PassOver, ProcessEnvelope, Open, Seal, SyncRoom, Trust.See, Trust.AcceptPeerKey, SameCandidates, SameRoom;
    assert Enabled(c', op) == Enabled(c, op);
    match op
    case SyncOp(_, _, _, _, _) => if Enabled(c, op) { SyncAlike(c, c', stale, op); }
    case KeyOp(user, key, _, _) =>
      SeeAlike(c.trust, c'.trust, stale, user, key, "");
      if Enabled(c, op) { KeyAlike(c, c', stale, op); }
    case DirectOp(user, key, _) => SeeAlike(c.trust, c'.trust, stale, user, key, "");
    case TickOp(order, nonce) => if Enabled(c, op) { BothPass(c, c', stale, order, None, nonce); }
    case EnvelopeOp(frame) => EnvelopeAlike(c, c', stale, frame);
    case OpenOp(room, sender, payload) => OpenAlike(c, c', stale, room, sender, payload);
    case SealOp(room, plaintext, nonce) => SealAlike(c, c', stale, room, plaintext, nonce);
    case LeaveOp(_) =>
    case TrustOp(event) => TrustAlike(c.trust, c'.trust, stale, event);
  }

  ghost predicate AcceptsNone(ops: seq<Op>, stale: iset<string>) {
    forall i | 0 <= i < |ops| :: !AcceptsOneOf(ops[i], stale)
  }

  /** Two alike clients answer every run alike, as long as nobody with differing candidates is accepted. */
  lemma {:induction false} RunAlike(c: Client, c': Client, stale: iset<string>, ops: seq<Op>)
    requires Alike(c, c', stale) && AcceptsNone(ops, stale)
    ensures AnswersAlong(c', ops) == AnswersAlong(c, ops)
    ensures Alike(Exec(c, ops), Exec(c', ops), stale)
    decreases |ops|
  {
    hide Alike, Step, AnswerOf;
    if ops != [] {
      var n := |ops| - 1;
      RunAlike(c, c', stale, ops[..n]);
      StepAlike(Exec(c, ops[..n]), Exec(c', ops[..n]), stale, ops[n]);
    }
  }

  // ---- one restart -----------------------------------------------------------------------

  /** What every run keeps and every restart restores: the room invariant, keyed pins, genuine candidates. */
  ghost predicate Sound(c: Client) {
    && ClientOk(c) && Trust.PinsKeyed(c.trust.pins)
    && Trust.CandidatesRecorded(c.trust) && Trust.CandidatesConflict(c.trust)
  }

  lemma {:induction false} SoundAlongRun(c: Client, ops: seq<Op>)
    requires Sound(c)
    ensures Sound(Exec(c, ops))
  {
    hide ClientOk, Exec, EventsAlong, Trust.Run;
    RunOk(c, ops);
    TrustRun(c, ops);
    Trust.PinsKeyedAlongRun(c.trust, EventsAlong(c, ops));
    Trust.CandidatesAlongRun(c.trust, EventsAlong(c, ops));
    Trust.ConflictsAlongRun(c.trust, EventsAlong(c, ops));
  }

  /** A client started from the files that `c` wrote. */
  ghost predicate RestartOf(c: Client, c': Client) {
    exists keys, rooms, pins :: FileText(c.rooms, rooms) && TrustText(c.trust.pins.users, pins)
      && c' == Reloaded(c.me, keys, Document(rooms), Document(pins))
  }

  /** The users whose changed key is recorded for acceptance. */
  ghost function Candidates(c: Client): iset<string> {
    iset u | u in c.trust.changed
  }

  /** The same identity and pins, and no candidate. */
  ghost predicate LosesCandidates(c: Client, c': Client) {
    && c'.me == c.me.(keys := c'.me.keys)
    && c'.trust == Trust.Session(Trust.Pins(c.trust.pins.users, {}), map[])
  }

  /** Everything but the candidates is restored, and the invariant with it, so that restarts compose. */
  lemma {:induction false} RestartRestores(c: Client, c': Client)
    requires Sound(c) && RestartOf(c, c')
    ensures c'.rooms == c.rooms && LosesCandidates(c, c')
    ensures Sound(c') && Alike(c, c', Candidates(c))
  {
    hide FileText, TrustText, LoadFile, LoadTrust, ClientOk;
    var keys, rooms, pins :| FileText(c.rooms, rooms) && TrustText(c.trust.pins.users, pins)
      && c' == Reloaded(c.me, keys, Document(rooms), Document(pins));
    SavedRoomsLoad(c, [], rooms);
    SavedTrustLoads(c, [], map[], pins);
    SameRooms(c, c');
  }

  lemma {:induction false} SameRooms(c: Client, c': Client)
    requires c'.rooms == c.rooms
    ensures forall r | r in c.rooms :: SameRoom(c.rooms[r], c'.rooms[r])
    ensures ClientOk(c) ==> ClientOk(c')
  {
    hide RoomOk;
  }

  /**
   After any run, save, restart and load: over every further run in which no candidate that was
   pending at the restart is accepted, every operation is answered as without the restart. So a
   restart loses no key that could be opened and brings back none that was used up.
   */
  lemma {:induction false} RestartIsTransparent(c: Client, ops: seq<Op>, restarted: Client, further: seq<Op>)
    requires Sound(c) && RestartOf(Exec(c, ops), restarted) && AcceptsNone(further, Candidates(Exec(c, ops)))
    ensures Sound(restarted)
    ensures AnswersAlong(restarted, further) == AnswersAlong(Exec(c, ops), further)
    ensures Alike(Exec(Exec(c, ops), further), Exec(restarted, further), Candidates(Exec(c, ops)))
  {
    hide Exec, AnswersAlong, Sound, Alike, RestartOf, Candidates;
    SoundAlongRun(c, ops);
    RestartRestores(Exec(c, ops), restarted);
    RunAlike(Exec(c, ops), restarted, Candidates(Exec(c, ops)), further);
  }

  lemma {:induction false} FirstAnswer(c: Client, op: Op)
    ensures AnswersAlong(c, [op]) == [AnswerOf(c, op)]
  {
    hide AnswerOf;
    assert [op][..0] == [] && AnswersAlong(c, [op][..0]) == [] && Exec(c, [op][..0]) == c;
  }

  /** A restart is invisible over every further run exactly when no changed key waits for acceptance. */
  lemma {:induction false} RestartInvisibleExactly(c: Client, restarted: Client)
    requires Sound(c) && RestartOf(c, restarted)
    ensures (forall further :: AnswersAlong(restarted, further) == AnswersAlong(c, further))
       <==> c.trust.changed == map[]
  {
    hide AnswersAlong, Alike, RestartOf, ClientOk;
    RestartRestores(c, restarted);
    if c.trust.changed == map[] {
      forall further ensures AnswersAlong(restarted, further) == AnswersAlong(c, further) {
        assert AcceptsNone(further, Candidates(c));
        RunAlike(c, restarted, Candidates(c), further);
      }
    } else {
      var u :| u in c.trust.changed;
      var accept := TrustOp(Trust.Accepted(u));
      FirstAnswer(c, accept);
      FirstAnswer(restarted, accept);
      assert AnswersAlong(restarted, [accept]) != AnswersAlong(c, [accept]);
    }
  }

  // ---- what the lost candidate costs -----------------------------------------------------

  /** An envelope from `user` under the keys that wait for acceptance. */
  ghost predicate UnderCandidate(c: Client, user: string, env: Envelope) {
    && user in c.trust.changed && env.from == user && !IllFormed(c.me, env)
    && env.wrapped.senderX == c.trust.changed[user].0
    && (c.trust.changed[user].1 != "" ==> env.wrapped.senderEd == c.trust.changed[user].1)
  }

  /**
   The failing input: the user accepts the changed key and its owner's envelope arrives. Without a
   restart the acceptance succeeds and the envelope passes the trust check; with one in between (see
   `RestartRestores`) the acceptance has nothing to accept and the envelope is answered KEY_CHANGED.
   */
  lemma {:induction false} CandidateLost(c: Client, restarted: Client, user: string, env: Envelope)
    requires Trust.CandidatesRecorded(c.trust) && Trust.CandidatesConflict(c.trust)
    requires LosesCandidates(c, restarted) && UnderCandidate(c, user, env)
    ensures var run := [TrustOp(Trust.Accepted(user)), EnvelopeOp(Some(env))];
      && AnswersAlong(restarted, run) == [Done(false), Received(KEY_CHANGED)]
      && (AnswersAlong(c, run) == [Done(true), Received(OK)] || AnswersAlong(c, run) == [Done(true), Received(INVALID)])
  {
    hide ProcessEnvelope, AnswersAlong, HasEmptyField;
    var accept, envelope := TrustOp(Trust.Accepted(user)), EnvelopeOp(Some(env));
    TwoAnswers(c, accept, envelope);
    TwoAnswers(restarted, accept, envelope);
    ChangedExactly(Step(c, accept).0, env);
    ChangedExactly(Step(restarted, accept).0, env);
  }

  /** A well-formed envelope is answered KEY_CHANGED exactly when the trust check says so. */
  lemma {:induction false} ChangedExactly(c: Client, env: Envelope)
    requires !IllFormed(c.me, env)
    ensures ProcessEnvelope(c, Some(env)).1 == KEY_CHANGED
       <==> Trust.See(c.trust, env.from, env.wrapped.senderX, env.wrapped.senderEd).1 == Trust.CHANGED
  {
    hide Trust.See, UnwrapFor, AddChain, FindChain, IllFormed;
  }

  lemma {:induction false} TwoAnswers(c: Client, first: Op, second: Op)
    ensures AnswersAlong(c, [first, second]) == [AnswerOf(c, first), AnswerOf(Step(c, first).0, second)]
  {
    hide AnswerOf, Step;
    var ops := [first, second];
    assert ops[..1] == [first] && ops[..1][..0] == [];
    FirstAnswer(c, first);
    assert Exec(c, ops[..1]) == Step(c, first).0;
  }

  // ---- any number of restarts ------------------------------------------------------------

  ghost function Concat(segments: seq<seq<Op>>): seq<Op> {
    if segments == [] then [] else Concat(segments[..|segments| - 1]) + segments[|segments| - 1]
  }

  /** `starts[i]` is the client at the start of segment `i`, after a restart at the end of the one before. */
  ghost predicate Lives(c: Client, starts: seq<Client>, segments: seq<seq<Op>>) {
    && |starts| == |segments| > 0 && starts[0] == c
    && forall i | 0 < i < |starts| :: RestartOf(Exec(starts[i - 1], segments[i - 1]), starts[i])
  }

  ghost function LivedAnswers(starts: seq<Client>, segments: seq<seq<Op>>): seq<Answer>
    requires |starts| == |segments|
  {
    if starts == [] then []
    else
      var n := |starts| - 1;
      LivedAnswers(starts[..n], segments[..n]) + AnswersAlong(starts[n], segments[n])
  }

  lemma {:induction false} AnswersConcat(c: Client, a: seq<Op>, b: seq<Op>)
    ensures AnswersAlong(c, a + b) == AnswersAlong(c, a) + AnswersAlong(Exec(c, a), b)
    ensures Exec(c, a + b) == Exec(Exec(c, a), b)
    decreases |b|
  {
    hide Step, AnswerOf;
    if b == [] {
      assert a + b == a;
    } else {
      var n := |b| - 1;
      assert (a + b)[..|a| + n] == a + b[..n];
      AnswersConcat(c, a, b[..n]);
    }
  }

  ghost function Everyone(): iset<string> {
    iset u: string | |u| >= 0
  }

  ghost predicate NeverAccepts(segments: seq<seq<Op>>) {
    forall i | 0 <= i < |segments| :: AcceptsNone(segments[i], Everyone())
  }

  lemma {:induction false} AlikeTransitive(a: Client, b: Client, c: Client)
    requires Alike(a, b, Everyone()) && Sound(b) && RestartOf(b, c)
    ensures Alike(a, c, Everyone())
  {
    hide ClientOk, RestartOf;
    RestartRestores(b, c);
  }

  /** However often a client is restarted, a life without acceptances is answered like one run. */
  lemma {:induction false} RestartsCompose(c: Client, starts: seq<Client>, segments: seq<seq<Op>>)
    requires Sound(c) && Lives(c, starts, segments) && NeverAccepts(segments)
    ensures LivedAnswers(starts, segments) == AnswersAlong(c, Concat(segments))
    ensures var last := |starts| - 1; var end := Exec(starts[last], segments[last]);
      Sound(end) && Alike(Exec(c, Concat(segments)), end, Everyone())
    decreases |starts|
  {
    hide Sound, Alike, RestartOf, AnswersAlong, Exec;
    var n := |starts| - 1;
    AnswersConcat(c, Concat(segments[..n]), segments[n]);
    if n == 0 {
      OneLife(c, starts, segments);
    } else {
      RestartsCompose(c, starts[..n], segments[..n]);
      var before := Exec(starts[n - 1], segments[n - 1]);
      AlikeTransitive(Exec(c, Concat(segments[..n])), before, starts[n]);
      RestartRestores(before, starts[n]);
      RunAlike(Exec(c, Concat(segments[..n])), starts[n], Everyone(), segments[n]);
      SoundAlongRun(starts[n], segments[n]);
    }
  }

  lemma {:induction false} OneLife(c: Client, starts: seq<Client>, segments: seq<seq<Op>>)
    requires Sound(c) && Lives(c, starts, segments) && |starts| == 1
    ensures LivedAnswers(starts, segments) == AnswersAlong(c, Concat(segments))
    ensures var end := Exec(c, segments[0]); Sound(end) && Alike(Exec(c, Concat(segments)), end, Everyone())
  {
    hide Sound, AnswersAlong, Exec;
    assert segments[..0] == [] && Concat(segments[..0]) == [];
    assert [] + segments[0] == segments[0];
    assert LivedAnswers(starts[..0], segments[..0]) == [];
    SoundAlongRun(c, segments[0]);
  }
}
