/** The pins of a client over whole runs: every operation touches them through the trust session only. */
module GroupTrust {
  import opened Prelude
  import opened GroupManager
  import opened GroupInvariant
  import RoomCrypto
  import Trust = TrustStore

  /** What an operation shows to the trust session: at most one event. */
  ghost function EventsOf(c: Client, op: Op): seq<Trust.Event> {
    if !Enabled(c, op) then []
    else match op
      case KeyOp(user, key, _, _) => if user == "" || key == "" then [] else [Trust.Seen(user, key, "")]
      case DirectOp(user, key, _) => if user == "" || key == "" then [] else [Trust.Seen(user, key, "")]
      case EnvelopeOp(frame) =>
        if frame.None? || IllFormed(c.me, frame.value) then []
        else [Trust.Seen(frame.value.from, frame.value.wrapped.senderX, frame.value.wrapped.senderEd)]
      case TrustOp(event) => [event]
      case _ => []
  }

  ghost function EventsAlong(c: Client, ops: seq<Op>): seq<Trust.Event> {
    if ops == [] then []
    else EventsAlong(c, ops[..|ops| - 1]) + EventsOf(Exec(c, ops[..|ops| - 1]), ops[|ops| - 1])
  }

  lemma {:induction false} PassKeepsTrust(c: Client, order: seq<string>, user: Option<string>, nonce: Nonce)
    requires forall r | r in order :: r in c.rooms
    ensures PassOver(c, order, user, nonce).0.trust == c.trust
    decreases |order|
  {
    hide RoomPass;
    if order != [] {
      PassKeepsTrust(c, order[..|order| - 1], user, nonce);
    }
  }

  lemma {:induction false} TrustStep(c: Client, op: Op)
    ensures Trust.Named(EventsOf(c, op))
    ensures var events := EventsOf(c, op);
      |events| <= 1 && Step(c, op).0.trust == if events == [] then c.trust else Trust.Step(c.trust, events[0])
  {
    hide PassOver, Sync, RoomCrypto.Open, RoomCrypto.Seal, UnwrapFor, AddChain, FindChain, Trust.CheckAndPin;
    if Enabled(c, op) {
      match op
      case KeyOp(user, key, order, nonce) =>
        PassKeepsTrust(CacheKey(c.(trust := Trust.See(c.trust, user, key, "").0), user, key), order, Some(user), nonce);
      case TickOp(order, nonce) => PassKeepsTrust(c, order, None, nonce);
      case _ =>
    }
  }

  /** A run of the client is, for its pins, a run of the trust session in which every sighting names a key. */
  lemma {:induction false} TrustRun(c: Client, ops: seq<Op>)
    ensures Trust.Named(EventsAlong(c, ops))
    ensures Exec(c, ops).trust == Trust.Run(c.trust, EventsAlong(c, ops))
    decreases |ops|
  {
    hide Step, EventsOf, Trust.Step;
    if ops != [] {
      var n := |ops| - 1;
      TrustRun(c, ops[..n]);
      var before, last := EventsAlong(c, ops[..n]), EventsOf(Exec(c, ops[..n]), ops[n]);
      TrustStep(Exec(c, ops[..n]), ops[n]);
      if last == [] {
        assert before + last == before;
      } else {
        assert (before + last)[..|before + last| - 1] == before;
      }
    }
  }

  ghost predicate NeverAcceptsKey(ops: seq<Op>, user: string) {
    forall i | 0 <= i < |ops| :: ops[i] != TrustOp(Trust.Accepted(user))
  }

  lemma {:induction false} AcceptanceIsExplicit(c: Client, ops: seq<Op>, user: string)
    requires NeverAcceptsKey(ops, user)
    ensures Trust.NeverAccepts(EventsAlong(c, ops), user)
    decreases |ops|
  {
    hide Exec, IllFormed;
    if ops != [] {
      AcceptanceIsExplicit(c, ops[..|ops| - 1], user);
    }
  }

  /** Whatever a client does and receives, a pin moves only by an explicit acceptance. */
  lemma {:induction false} PinsOnlyMoveByAcceptance(c: Client, ops: seq<Op>, user: string)
    requires user in c.trust.pins.users && NeverAcceptsKey(ops, user)
    ensures user in Exec(c, ops).trust.pins.users
    ensures Trust.SamePin(c.trust.pins.users[user], Exec(c, ops).trust.pins.users[user])
  {
    hide Exec, Trust.Run, EventsAlong;
    TrustRun(c, ops);
    AcceptanceIsExplicit(c, ops, user);
    Trust.PinStable(c.trust, EventsAlong(c, ops), user);
  }

  /** And every pending user can be accepted, with the candidate last seen. */
  lemma {:induction false} PendingCanBeAccepted(c: Client, ops: seq<Op>, user: string)
    requires Trust.CandidatesRecorded(c.trust) && user in Exec(c, ops).trust.pins.pending
    ensures Trust.CandidatesRecorded(Exec(c, ops).trust) && Trust.AcceptPeerKey(Exec(c, ops).trust, user).1
  {
    hide Exec, Trust.Run, EventsAlong;
    TrustRun(c, ops);
    Trust.AcceptedIsKnown(c.trust, EventsAlong(c, ops), user);
    Trust.CandidatesAlongRun(c.trust, EventsAlong(c, ops));
  }
}
