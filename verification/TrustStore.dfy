/** Trust on first use: the pinned identity keys of each user. */
module TrustStore {
  datatype TrustedIdentity = TrustedIdentity(x: string, ed: string, verified: bool)

  datatype TrustStatus = KNOWN | NEWLY_PINNED | CHANGED

  datatype Pins = Pins(users: map<string, TrustedIdentity>, pending: set<string>)

  function CheckAndPin(p: Pins, user: string, x: string, ed: string): (Pins, TrustStatus) {
    if user == "" || x == "" then (p, CHANGED)
    else if user !in p.users then
      (p.(users := p.users[user := TrustedIdentity(x, ed, false)]), NEWLY_PINNED)
    else
      var pinned := p.users[user];
      if pinned.x != x then (p.(pending := p.pending + {user}), CHANGED)
      else if ed == "" || pinned.ed == ed then (p, KNOWN)
      else if pinned.ed == "" then (p.(users := p.users[user := pinned.(ed := ed)]), KNOWN)
      else (p.(pending := p.pending + {user}), CHANGED)
  }

  function AcceptNewKey(p: Pins, user: string, x: string, ed: string): (Pins, bool) {
    if user == "" || x == "" then (p, false)
    else (Pins(p.users[user := TrustedIdentity(x, ed, false)], p.pending - {user}), true)
  }

  function MarkVerified(p: Pins, user: string, verified: bool): (Pins, bool) {
    if user !in p.users then (p, false)
    else (p.(users := p.users[user := p.users[user].(verified := verified)]), true)
  }

  class Store {
    var users: map<string, TrustedIdentity>
    var pending: set<string>

    function State(): Pins
      reads this
    {
      Pins(users, pending)
    }

    constructor (p: Pins)
      ensures State() == p
    {
      users, pending := p.users, p.pending;
    }

    method Check(user: string, x: string, ed: string) returns (status: TrustStatus)
      modifies this
      ensures (State(), status) == CheckAndPin(old(State()), user, x, ed)
    {
      if user == "" || x == "" {
        return CHANGED;
      }
      if user !in users {
        users := users[user := TrustedIdentity(x, ed, false)];
        return NEWLY_PINNED;
      }
      var pinned := users[user];
      if pinned.x != x {
        pending := pending + {user};
        return CHANGED;
      }
      if ed != "" {
        if pinned.ed == "" {
          users := users[user := pinned.(ed := ed)];
        } else if pinned.ed != ed {
          pending := pending + {user};
          return CHANGED;
        }
      }
      return KNOWN;
    }

    method Accept(user: string, x: string, ed: string) returns (ok: bool)
      modifies this
      ensures (State(), ok) == AcceptNewKey(old(State()), user, x, ed)
    {
      if user == "" || x == "" {
        return false;
      }
      users := users[user := TrustedIdentity(x, ed, false)];
      pending := pending - {user};
      return true;
    }

    method Mark(user: string, verified: bool) returns (ok: bool)
      modifies this
      ensures (State(), ok) == MarkVerified(old(State()), user, verified)
    {
      if user !in users {
        return false;
      }
      users := users[user := users[user].(verified := verified)];
      return true;
    }
  }

  // ---- the client's session around the store ---------------------------------------------

  /** `changed` holds, per user, the candidate keys last seen to differ from the pin. */
  datatype Session = Session(pins: Pins, changed: map<string, (string, string)>)

  datatype Event =
    | Seen(user: string, x: string, ed: string) // an envelope, or a direct-message key with ed = ""
    | Accepted(user: string)
    | Marked(user: string, verified: bool)

  function See(s: Session, user: string, x: string, ed: string): (Session, TrustStatus) {
    var (pins, status) := CheckAndPin(s.pins, user, x, ed);
    (Session(pins, if status == CHANGED then s.changed[user := (x, ed)] else s.changed), status)
  }

  function AcceptPeerKey(s: Session, user: string): (Session, bool) {
    if user !in s.changed then (s, false)
    else
      var (x, ed) := s.changed[user];
      var (pins, ok) := AcceptNewKey(s.pins, user, x, ed);
      (Session(pins, if ok then s.changed - {user} else s.changed), ok)
  }

  function Step(s: Session, e: Event): Session {
    match e
    case Seen(u, x, ed) => See(s, u, x, ed).0
    case Accepted(u) => AcceptPeerKey(s, u).0
    case Marked(u, v) => s.(pins := MarkVerified(s.pins, u, v).0)
  }

  function Run(s: Session, events: seq<Event>): Session {
    if events == [] then s else Step(Run(s, events[..|events| - 1]), events[|events| - 1])
  }

  /** Every sighting names a user and a box key. */
  ghost predicate Named(events: seq<Event>) {
    forall e | e in events && e.Seen? :: e.user != "" && e.x != ""
  }

  ghost predicate NeverAccepts(events: seq<Event>, user: string) {
    forall e | e in events && e.Accepted? :: e.user != user
  }

  /** Every pending user has a candidate whose acceptance will succeed. */
  ghost predicate CandidatesRecorded(s: Session) {
    && (forall u | u in s.pins.pending :: u in s.changed)
    && (forall u | u in s.changed :: u != "" && s.changed[u].0 != "")
  }

  /** The keys that would be answered CHANGED for a user with this pin. */
  predicate Conflicts(pin: TrustedIdentity, x: string, ed: string) {
    pin.x != x || (ed != "" && pin.ed != "" && pin.ed != ed)
  }

  /** Every candidate is for a pinned user, and conflicts with the pin. */
  ghost predicate CandidatesConflict(s: Session) {
    forall u | u in s.changed :: u in s.pins.users && Conflicts(s.pins.users[u], s.changed[u].0, s.changed[u].1)
  }

  lemma {:induction false} ConflictsAlongRun(s: Session, events: seq<Event>)
    requires CandidatesConflict(s) && Named(events)
    ensures CandidatesConflict(Run(s, events))
    decreases |events|
  {
    hide Conflicts;
    if events != [] {
      var n := |events| - 1;
      assert events[n] in events;
      forall e | e in events[..n] && e.Seen? ensures e.user != "" && e.x != "" {
        assert e in events;
      }
      ConflictsAlongRun(s, events[..n]);
      ConflictsStep(Run(s, events[..n]), events[n]);
    }
  }

  lemma {:induction false} ConflictsStep(s: Session, e: Event)
    requires CandidatesConflict(s) && (e.Seen? ==> e.user != "" && e.x != "")
    ensures CandidatesConflict(Step(s, e))
  {
  }

  lemma {:induction false} CandidatesAlongRun(s: Session, events: seq<Event>)
    requires CandidatesRecorded(s) && Named(events)
    ensures CandidatesRecorded(Run(s, events))
    decreases |events|
  {
    if events != [] {
      var n := |events| - 1;
      forall e | e in events[..n] && e.Seen? ensures e.user != "" && e.x != "" {
        assert e in events;
      }
      CandidatesAlongRun(s, events[..n]);
      assert events[n] in events;
    }
  }

  /** Every pin has a box key. */
  ghost predicate PinsKeyed(p: Pins) {
    forall u | u in p.users :: p.users[u].x != ""
  }

  lemma {:induction false} PinsKeyedAlongRun(s: Session, events: seq<Event>)
    requires PinsKeyed(s.pins)
    ensures PinsKeyed(Run(s, events).pins)
    decreases |events|
  {
    if events != [] {
      PinsKeyedAlongRun(s, events[..|events| - 1]);
    }
  }

  /** How a pin may have moved: the same box key, and a signing key that was at most filled in. */
  predicate SamePin(before: TrustedIdentity, after: TrustedIdentity) {
    before.x == after.x && (before.ed != "" ==> after.ed == before.ed)
  }

  /** Without an explicit acceptance a pin's box key never changes and its signing key is set at most once. */
  lemma {:induction false} PinStable(s: Session, events: seq<Event>, user: string)
    requires user in s.pins.users && NeverAccepts(events, user)
    ensures user in Run(s, events).pins.users
    ensures SamePin(s.pins.users[user], Run(s, events).pins.users[user])
    decreases |events|
  {
    if events != [] {
      var n := |events| - 1;
      forall e | e in events[..n] && e.Accepted? ensures e.user != user {
        assert e in events;
      }
      PinStable(s, events[..n], user);
      assert events[n] in events;
    }
  }

  /** A CHANGED answer alters no pin; any other answer means the pin now holds the box key that was shown. */
  lemma {:induction false} ChangedAltersNoPin(s: Session, user: string, x: string, ed: string)
    ensures var (s', status) := See(s, user, x, ed);
      && (status == CHANGED ==> s'.pins.users == s.pins.users && s'.changed[user] == (x, ed))
      && (status != CHANGED ==> user in s'.pins.users && s'.pins.users[user].x == x)
      && (status != CHANGED && ed != "" ==> s'.pins.users[user].ed == ed)
      && (status == CHANGED && user != "" && x != "" ==> user in s'.pins.pending)
  {
  }

  /**
   A pending change can be accepted after any further run of sightings and marks, and then the
   candidate last seen to differ is KNOWN, the warning is gone and nothing is marked verified.
   */
  lemma {:induction false} AcceptedIsKnown(s: Session, events: seq<Event>, user: string)
    requires CandidatesRecorded(s) && Named(events) && user in Run(s, events).pins.pending
    ensures user in Run(s, events).changed
    ensures
      var (x, ed) := Run(s, events).changed[user];
      var (s2, ok) := AcceptPeerKey(Run(s, events), user);
      && ok && user !in s2.pins.pending && !s2.pins.users[user].verified
      && See(s2, user, x, ed) == (s2, KNOWN)
      && CandidatesRecorded(s2)
  {
    CandidatesAlongRun(s, events);
  }

  /** A sighting keeps every pending user acceptable exactly when it names a user and a box key. */
  lemma {:induction false} CandidatesKeptExactly(s: Session, user: string, x: string, ed: string)
    requires CandidatesRecorded(s)
    ensures CandidatesRecorded(See(s, user, x, ed).0) <==> user != "" && x != ""
  {
    var s' := See(s, user, x, ed).0;
    if user == "" || x == "" {
      assert user in s'.changed;
    }
  }

  /**
   A verified mark belongs to the key now pinned: it was set by a mark at some point of the run, it
   was not withdrawn since, and the pin it was set on is still there.
   */
  lemma {:induction false} VerifiedSince(s: Session, events: seq<Event>, user: string) returns (i: nat)
    requires user in s.pins.users ==> !s.pins.users[user].verified
    requires user in Run(s, events).pins.users && Run(s, events).pins.users[user].verified
    ensures i < |events| && events[i] == Marked(user, true)
    ensures user in Run(s, events[..i]).pins.users
    ensures SamePin(Run(s, events[..i]).pins.users[user], Run(s, events).pins.users[user])
    ensures forall j | i < j < |events| :: events[j] != Marked(user, false)
    decreases |events|
  {
    hide CheckAndPin;
    var n := |events| - 1;
    var before := Run(s, events[..n]);
    VerifiedStep(before, events[n], user);
    if events[n] == Marked(user, true) {
      i := n;
    } else {
      i := VerifiedSince(s, events[..n], user);
      assert events[..n][..i] == events[..i];
    }
  }

  /** Only a mark sets the flag, and no other event that keeps it set moves the pin. */
  lemma {:induction false} VerifiedStep(s: Session, e: Event, user: string)
    requires user in Step(s, e).pins.users && Step(s, e).pins.users[user].verified
    ensures user in s.pins.users && SamePin(s.pins.users[user], Step(s, e).pins.users[user])
    ensures e != Marked(user, true) ==> s.pins.users[user].verified && e != Marked(user, false)
  {
  }

  /** A signing key is filled in where there was none. */
  function Filled(pin: TrustedIdentity, ed: string): TrustedIdentity {
    if pin.ed == "" then pin.(ed := ed) else pin
  }

  /** What a sighting is answered, and everything it changes. */
  lemma {:induction false} SeeExactly(s: Session, user: string, x: string, ed: string)
    ensures var (s', status) := See(s, user, x, ed);
      && (status == CHANGED
          <==> user == "" || x == "" || (user in s.pins.users && Conflicts(s.pins.users[user], x, ed)))
      && (status == NEWLY_PINNED <==> user != "" && x != "" && user !in s.pins.users)
      && (status == NEWLY_PINNED ==> s'.pins.users == s.pins.users[user := TrustedIdentity(x, ed, false)])
      && (status == KNOWN
          ==> user in s.pins.users && s'.pins.users == s.pins.users[user := Filled(s.pins.users[user], ed)])
      && (status == CHANGED ==> s'.pins.users == s.pins.users && s'.changed == s.changed[user := (x, ed)])
      && (status != CHANGED ==> s'.changed == s.changed && s'.pins.pending == s.pins.pending)
      && (status == CHANGED ==> s'.pins.pending == s.pins.pending + if user == "" || x == "" then {} else {user})
  {
    var status := See(s, user, x, ed).1;
    if status == KNOWN {
      assert user in s.pins.users;
    }
  }

  /** An acceptance succeeds exactly on a recorded candidate with a key, and moves that user only. */
  lemma {:induction false} AcceptExactly(s: Session, user: string)
    ensures var (s', ok) := AcceptPeerKey(s, user);
      && (ok <==> user != "" && user in s.changed && s.changed[user].0 != "")
      && (!ok ==> s' == s)
      && (ok ==> s'.pins.users == s.pins.users[user := TrustedIdentity(s.changed[user].0, s.changed[user].1, false)]
                 && s'.pins.pending == s.pins.pending - {user} && s'.changed == s.changed - {user})
  {
  }

  /** A mark takes effect on a known user and on nothing else, ... */
  lemma {:induction false} MarkTakesEffect(p: Pins, user: string, verified: bool)
    ensures var (p', ok) := MarkVerified(p, user, verified);
      && (ok <==> user in p.users)
      && (!ok ==> p' == p)
      && (ok ==> user in p'.users && p'.users[user] == TrustedIdentity(p.users[user].x, p.users[user].ed, verified))
      && p'.pending == p.pending && p'.users.Keys == p.users.Keys
      && (forall u | u in p.users && u != user :: p'.users[u] == p.users[u])
  {
  }

  /** ... and lasts until the user is marked again or a new key is accepted, whatever keys are shown. */
  lemma {:induction false} MarkLasts(s: Session, events: seq<Event>, user: string)
    requires user in s.pins.users && NeverAccepts(events, user)
    requires forall e | e in events && e.Marked? :: e.user != user
    ensures user in Run(s, events).pins.users && Run(s, events).pins.users[user].verified == s.pins.users[user].verified
    decreases |events|
  {
    if events != [] {
      var n := |events| - 1;
      assert events[n] in events;
      assert forall e | e in events[..n] :: e in events;
      MarkLasts(s, events[..n], user);
    }
  }
}
