/** What each membership step does, said of connections and names alone, and who is listed along runs. */
module MembershipRuns {
  import opened Membership

  // ---- single steps ----------------------------------------------------------------------

  /** The frame goes to exactly the live connections in the room, and names exactly their users. */
  ghost predicate TellsAbout(b: Broadcast, s: Server, room: string, epoch: nat) {
    && b.room == room && b.epoch == epoch
    && (forall j :: j in b.recipients <==> j in s.live && s.ix.In(j, room))
    && (forall u :: u in b.members <==> exists j :: j in s.names && s.names[j] == u && j in s.live && s.ix.In(j, room))
  }

  /** The state after announcing a room. */
  ghost predicate Announced(s: Server, s': Server, room: string) {
    && room in s.epochs && s'.epochs == s.epochs[room := s.epochs[room] + 1]
    && |s'.log| == |s.log| + 1 && s'.log[..|s.log|] == s.log
    && TellsAbout(s'.log[|s.log|], s', room, s.epochs[room] + 1)
  }

  lemma {:induction false} AnnounceExactly(s: Server, room: string)
    requires room in s.epochs
    ensures Announced(s, s.Announce(room), room)
  {
    var b := s.Announce(room).log[|s.log|];
    forall u
      ensures u in b.members <==> exists j :: j in s.names && s.names[j] == u && j in s.live && s.ix.In(j, room)
    {
      if u in b.members {
        var j :| j in s.LiveIn(room) && j in s.names && s.names[j] == u;
        assert s.ix.In(j, room);
      }
    }
  }

  /** Joining adds this one membership, makes the room current, and announces the room with the newcomer. */
  lemma {:induction false} JoinExactly(s: Server, id: nat, room: string)
    requires ServerOk(s) && id in s.live
    ensures id !in s.names ==> s.Join(id, room) == s
    ensures id in s.names ==> var s' := s.Join(id, room);
      && s'.live == s.live && s'.names == s.names
      && (forall j, r :: s'.ix.In(j, r) <==> s.ix.In(j, r) || (j == id && r == room))
      && (forall j :: s'.CurrentOf(j) == if j == id then room else s.CurrentOf(j))
      && Announced(s.(epochs := if room in s.epochs then s.epochs else s.epochs[room := 1]), s', room)
  {
    hide ServerOk, Announced;
    if id in s.names {
      Parts(s);
      s.ix.AddExact(id, room);
      var s1 := s.(epochs := if room in s.epochs then s.epochs else s.epochs[room := 1],
                   ix := s.ix.Add(id, room), current := s.current[id := room]);
      AnnounceExactly(s1, room);
      AnnouncedDepends(s1, s.(epochs := s1.epochs), s1.Announce(room), room);
    }
  }

  lemma {:induction false} AnnouncedDepends(s: Server, t: Server, s': Server, room: string)
    requires Announced(s, s', room) && t.epochs == s.epochs && t.log == s.log
    ensures Announced(t, s', room)
  {
    hide TellsAbout;
  }

  /** The room to fall back on: some other room the connection is in, or none. */
  ghost predicate FallsBack(s: Server, id: nat, room: string, back: string) {
    if exists r :: r != room && s.ix.In(id, r) then back != room && s.ix.In(id, back) else back == ""
  }

  /**
   Leaving removes this one membership whatever the current room is, moves the current room only if
   it was the one left, and announces the room without the leaver.
   */
  lemma {:induction false} LeaveExactly(s: Server, id: nat, room: string, back: string)
    requires ServerOk(s) && s.IsBack(id, room, back)
    ensures FallsBack(s, id, room, back)
    ensures id !in s.names ==> s.Leave(id, room, back) == s
    ensures id in s.names ==> var s' := s.Leave(id, room, back);
      && s'.live == s.live && s'.names == s.names
      && (forall j, r :: s'.ix.In(j, r) <==> s.ix.In(j, r) && !(j == id && r == room))
      && (forall j :: s'.CurrentOf(j) == if j == id && s.CurrentOf(id) == room then back else s.CurrentOf(j))
      && (room in s.epochs ==> Announced(s, s', room))
      && (room !in s.epochs ==> s'.log == s.log && s'.epochs == s.epochs)
  {
    hide ServerOk, Announced;
    Parts(s);
    s.ix.RemoveOneExact(id, room);
    BackIsOther(s, id, room, back);
    if id in s.names && room in s.epochs {
      var s1 := s.(ix := s.ix.RemoveOne(id, room),
                   current := s.current[id := if s.CurrentOf(id) == room then back else s.CurrentOf(id)]);
      AnnounceExactly(s1, room);
      AnnouncedDepends(s1, s, s1.Announce(room), room);
    }
  }

  lemma {:induction false} BackIsOther(s: Server, id: nat, room: string, back: string)
    requires s.ix.Valid() && s.IsBack(id, room, back)
    ensures FallsBack(s, id, room, back)
  {
    var after := s.ix.RemoveOne(id, room);
    s.ix.RemoveOneExact(id, room);
    forall r ensures r in after.RoomsOf(id) <==> s.ix.In(id, r) && r != room {
      assert after.In(id, r) <==> after.Lists(id, r);
    }
    if exists r :: r != room && s.ix.In(id, r) {
      var r :| r != room && s.ix.In(id, r);
      assert r in after.RoomsOf(id);
    }
  }

  /** One frame for each of the listed rooms, in their order. */
  ghost predicate FramesEach(s: Server, s': Server, rooms: seq<string>) {
    && |s'.log| == |s.log| + |rooms| && s'.log[..|s.log|] == s.log
    && (forall i | 0 <= i < |rooms| :: rooms[i] in s.epochs
                                      && TellsAbout(s'.log[|s.log| + i], s, rooms[i], s.epochs[rooms[i]] + 1))
  }

  ghost predicate BumpedEach(s: Server, s': Server, rooms: seq<string>) {
    && s'.epochs.Keys == s.epochs.Keys
    && (forall r | r in s.epochs :: s'.epochs[r] == if r in rooms then s.epochs[r] + 1 else s.epochs[r])
  }

  ghost predicate AnnouncedEach(s: Server, s': Server, rooms: seq<string>) {
    && s'.live == s.live && s'.names == s.names && s'.ix == s.ix && s'.current == s.current
    && FramesEach(s, s', rooms) && BumpedEach(s, s', rooms)
  }

  lemma {:induction false} AnnounceAllExactly(s: Server, rooms: seq<string>)
    requires forall i | 0 <= i < |rooms| :: rooms[i] in s.epochs
    requires forall i, j | 0 <= i < j < |rooms| :: rooms[i] != rooms[j]
    ensures AnnouncedEach(s, s.AnnounceAll(rooms), rooms)
    decreases |rooms|
  {
    hide AnnouncedEach, Announced;
    if rooms == [] {
      NothingAnnounced(s);
    } else {
      var n := |rooms| - 1;
      AnnounceAllExactly(s, rooms[..n]);
      var mid := s.AnnounceAll(rooms[..n]);
      AnnouncedKeys(s, mid, rooms[..n]);
      AnnounceExactly(mid, rooms[n]);
      OneMoreAnnounced(s, mid, mid.Announce(rooms[n]), rooms);
    }
  }

  lemma {:induction false} NothingAnnounced(s: Server)
    ensures AnnouncedEach(s, s, [])
  {
  }

  lemma {:induction false} AnnouncedKeys(s: Server, s': Server, rooms: seq<string>)
    requires AnnouncedEach(s, s', rooms)
    ensures s'.epochs.Keys == s.epochs.Keys
  {
  }

  lemma {:induction false} OneMoreAnnounced(s: Server, mid: Server, s': Server, rooms: seq<string>)
    requires rooms != [] && rooms[|rooms| - 1] in s.epochs
    requires forall i, j | 0 <= i < j < |rooms| :: rooms[i] != rooms[j]
    requires AnnouncedEach(s, mid, rooms[..|rooms| - 1]) && Announced(mid, s', rooms[|rooms| - 1])
    requires s'.live == mid.live && s'.names == mid.names && s'.ix == mid.ix && s'.current == mid.current
    ensures AnnouncedEach(s, s', rooms)
  {
    hide TellsAbout, FramesEach;
    var n := |rooms| - 1;
    assert rooms[n] !in rooms[..n];
    assert rooms == rooms[..n] + [rooms[n]];
    TellsSame(s'.log[|mid.log|], s', s, rooms[n], mid.epochs[rooms[n]] + 1);
    OneMoreFrame(s, mid, s', rooms);
  }

  lemma {:induction false} OneMoreFrame(s: Server, mid: Server, s': Server, rooms: seq<string>)
    requires rooms != [] && rooms[|rooms| - 1] in s.epochs && FramesEach(s, mid, rooms[..|rooms| - 1])
    requires |s'.log| == |mid.log| + 1 && s'.log[..|mid.log|] == mid.log
    requires TellsAbout(s'.log[|mid.log|], s, rooms[|rooms| - 1], s.epochs[rooms[|rooms| - 1]] + 1)
    ensures FramesEach(s, s', rooms)
  {
    hide TellsAbout;
    var n := |rooms| - 1;
    forall i | 0 <= i < |rooms|
      ensures rooms[i] in s.epochs && TellsAbout(s'.log[|s.log| + i], s, rooms[i], s.epochs[rooms[i]] + 1)
    {
      if i < n {
        assert rooms[..n][i] == rooms[i] && s'.log[|s.log| + i] == s'.log[..|mid.log|][|s.log| + i];
      }
    }
    assert s'.log[..|s.log|] == s'.log[..|mid.log|][..|s.log|];
  }

  lemma {:induction false} TellsSame(b: Broadcast, s: Server, t: Server, room: string, epoch: nat)
    requires TellsAbout(b, s, room, epoch) && t.live == s.live && t.names == s.names && t.ix == s.ix
    ensures TellsAbout(b, t, room, epoch)
  {
  }

  /** Leaving everything removes exactly this connection's memberships and announces each left room once. */
  lemma {:induction false} LeaveAllExactly(s: Server, id: nat, order: seq<string>)
    requires ServerOk(s) && IsListing(order, s.ix.RoomsOf(id))
    ensures forall r :: r in order <==> s.ix.In(id, r)
    ensures var s' := s.LeaveAll(id, order);
      && (forall j, r :: s'.ix.In(j, r) <==> s.ix.In(j, r) && j != id)
      && (forall j :: s'.CurrentOf(j) == if j == id then "" else s.CurrentOf(j))
      && AnnouncedEach(s.(ix := s'.ix, current := s'.current), s', order)
  {
    hide ServerOk, TellsAbout, Index.Valid;
    Parts(s);
    s.ix.RemoveAllExact(id);
    InLists(s, id);
    forall i | 0 <= i < |order| ensures order[i] in s.epochs {
      assert order[i] in order && s.ix.In(id, order[i]);
    }
    var s1 := s.(ix := s.ix.RemoveAll(id));
    AnnounceAllExactly(s1, order);
    AnnounceIgnoresCurrent(s1, order, s.current - {id});
    AnnounceAllExactly(s1.(current := s.current - {id}), order);
  }

  lemma {:induction false} InLists(s: Server, id: nat)
    requires s.ix.Valid()
    ensures forall r :: s.ix.In(id, r) <==> r in s.ix.RoomsOf(id)
  {
    forall r ensures s.ix.In(id, r) <==> s.ix.Lists(id, r) {
    }
  }

  // ---- who is a member after a step ------------------------------------------------------

  predicate Enters(s: Server, e: Event, id: nat, room: string) {
    e.Joined? && e.id == id && e.room == room && id in s.names
  }

  /** The connection leaves this room, leaves everything, or goes away. */
  predicate Exits(e: Event, id: nat, room: string) {
    (e.Left? && e.id == id && e.room == room) || ((e.LeftAll? || e.Disconnected?) && e.id == id)
  }

  /** The frames that a step appends. */
  ghost predicate NewFramesTell(s: Server, s': Server) {
    && |s.log| <= |s'.log| && s'.log[..|s.log|] == s.log
    && forall k | |s.log| <= k < |s'.log| :: TellsAbout(s'.log[k], s', s'.log[k].room, s'.log[k].epoch)
  }

  /** A step makes members exactly of those who enter, ends exactly the memberships that exit, and says so. */
  lemma {:induction false} StepExactly(s: Server, e: Event)
    requires ServerOk(s) && Possible(s, e)
    ensures var s' := Step(s, e);
      && (forall j, r :: s'.ix.In(j, r) <==> (s.ix.In(j, r) && !Exits(e, j, r)) || Enters(s, e, j, r))
      && NewFramesTell(s, s')
  {
    hide ServerOk, TellsAbout, Announced, Server.Join, Server.Leave, Server.LeaveAll, Server.Disconnect, Index.Valid;
    Parts(s);
    match e
    case Connected(id) =>
    case LoggedIn(id, name) =>
    case Joined(id, room) =>
      JoinExactly(s, id, room);
      if id in s.names {
        AnnouncedTells(s, s.(epochs := if room in s.epochs then s.epochs else s.epochs[room := 1]), Step(s, e), room);
      }
    case Left(id, room, back) =>
      LeaveExactly(s, id, room, back);
      if id !in s.names {
        OnlyNamedAreMembers(s, id);
      } else if room in s.epochs {
        AnnouncedTells(s, s, Step(s, e), room);
      }
    case LeftAll(id, order) => LeaveAllMoves(s, id, order);
    case Disconnected(id, order) => DisconnectMoves(s, id, order);
  }

  lemma {:induction false} AnnouncedTells(s: Server, t: Server, s': Server, room: string)
    requires Announced(t, s', room) && t.log == s.log
    ensures NewFramesTell(s, s')
  {
  }

  lemma {:induction false} OnlyNamedAreMembers(s: Server, id: nat)
    requires MembersOk(s) && id !in s.names
    ensures forall r :: !s.ix.In(id, r)
  {
  }

  lemma {:induction false} LeaveAllMoves(s: Server, id: nat, order: seq<string>)
    requires ServerOk(s) && IsListing(order, s.ix.RoomsOf(id))
    ensures var s' := s.LeaveAll(id, order);
      && s'.live == s.live && s'.names == s.names
      && (forall j, r :: s'.ix.In(j, r) <==> s.ix.In(j, r) && j != id) && NewFramesTell(s, s')
  {
    hide ServerOk, TellsAbout, Server.LeaveAll;
    LeaveAllExactly(s, id, order);
    var s' := s.LeaveAll(id, order);
    forall k | |s.log| <= k < |s'.log| ensures TellsAbout(s'.log[k], s', s'.log[k].room, s'.log[k].epoch) {
      var b := s'.log[|s.log| + (k - |s.log|)];
      TellsItself(b, s.(ix := s'.ix, current := s'.current), s', order[k - |s.log|],
                  s.epochs[order[k - |s.log|]] + 1);
    }
  }

  lemma {:induction false} TellsItself(b: Broadcast, s: Server, t: Server, room: string, epoch: nat)
    requires TellsAbout(b, s, room, epoch) && t.names == s.names && t.ix == s.ix
    requires forall j | s.ix.In(j, room) :: j in t.live <==> j in s.live
    ensures TellsAbout(b, t, b.room, b.epoch)
  {
  }

  /** Disconnecting is leaving everything, and then being gone. */
  lemma {:induction false} DisconnectMoves(s: Server, id: nat, order: seq<string>)
    requires ServerOk(s) && id in s.live && IsListing(order, s.ix.RoomsOf(id))
    ensures var s' := s.Disconnect(id, order);
      && s'.live == s.live - {id} && s'.names == s.names
      && (forall j, r :: s'.ix.In(j, r) <==> s.ix.In(j, r) && j != id) && NewFramesTell(s, s')
  {
    hide ServerOk, TellsAbout, Server.LeaveAll, Index.Valid;
    Parts(s);
    var mid := if id in s.names then s.LeaveAll(id, order) else s;
    if id in s.names {
      LeaveAllMoves(s, id, order);
      LeaveAllOk(s, id, order);
    } else {
      OnlyNamedAreMembers(s, id);
    }
    Parts(mid);
    mid.ix.RemoveAllExact(id);
    var s' := s.Disconnect(id, order);
    forall k | |s.log| <= k < |s'.log| ensures TellsAbout(s'.log[k], s', s'.log[k].room, s'.log[k].epoch) {
      TellsWithout(mid.log[k], mid, s', id);
    }
  }

  lemma {:induction false} TellsWithout(b: Broadcast, s: Server, t: Server, id: nat)
    requires TellsAbout(b, s, b.room, b.epoch) && t.names == s.names && t.live == s.live - {id}
    requires forall j :: t.ix.In(j, b.room) <==> s.ix.In(j, b.room)
    requires !s.ix.In(id, b.room)
    ensures TellsAbout(b, t, b.room, b.epoch)
  {
    forall u
      ensures u in b.members <==> exists j :: j in t.names && t.names[j] == u && j in t.live && t.ix.In(j, b.room)
    {
      if u in b.members {
        var j :| j in s.names && s.names[j] == u && j in s.live && s.ix.In(j, b.room);
        assert t.ix.In(j, b.room);
      }
    }
  }

  // ---- along runs ------------------------------------------------------------------------

  ghost function RunFrom(s: Server, events: seq<Event>): Server {
    if events == [] then s else Step(RunFrom(s, events[..|events| - 1]), events[|events| - 1])
  }

  lemma {:induction false} RunFromOk(s: Server, events: seq<Event>)
    requires ServerOk(s)
    ensures ServerOk(RunFrom(s, events)) && |s.log| <= |RunFrom(s, events).log|
    ensures RunFrom(s, events).log[..|s.log|] == s.log
    decreases |events|
  {
    hide ServerOk, Step, TellsAbout;
    if events != [] {
      var n := |events| - 1;
      RunFromOk(s, events[..n]);
      var mid := RunFrom(s, events[..n]);
      StepOk(mid, events[n]);
      StepAppends(mid, events[n]);
      var s' := Step(mid, events[n]);
      assert s'.log[..|s.log|] == s'.log[..|mid.log|][..|s.log|];
    }
  }

  lemma {:induction false} StepAppends(s: Server, e: Event)
    requires ServerOk(s)
    ensures NewFramesTell(s, Step(s, e))
  {
    hide ServerOk, TellsAbout;
    if Possible(s, e) {
      StepExactly(s, e);
    }
  }

  /** A frame sent in the run rather than before it. */
  ghost predicate SentIn(s: Server, s': Server, b: Broadcast) {
    exists k :: |s.log| <= k < |s'.log| && s'.log[k] == b
  }

  /** As long as a connection does not leave a room, every frame of the room reaches it and lists its user. */
  lemma {:induction false} ReachedWhileMember(s: Server, events: seq<Event>, id: nat, room: string, b: Broadcast)
    requires ServerOk(s) && s.ix.In(id, room)
    requires forall i | 0 <= i < |events| :: !Exits(events[i], id, room)
    ensures RunFrom(s, events).ix.In(id, room)
    ensures SentIn(s, RunFrom(s, events), b) && b.room == room ==>
      id in b.recipients && id in RunFrom(s, events).names && RunFrom(s, events).names[id] in b.members
    decreases |events|
  {
    hide ServerOk, Step, TellsAbout, Exits;
    if events != [] {
      var n := |events| - 1;
      var mid := RunFrom(s, events[..n]);
      var s' := RunFrom(s, events);
      ReachedWhileMember(s, events[..n], id, room, b);
      RunFromOk(s, events[..n]);
      MemberStep(mid, events[n], id, room);
      if SentIn(s, s', b) && b.room == room {
        var k :| |s.log| <= k < |s'.log| && s'.log[k] == b;
        if k < |mid.log| {
          assert mid.log[k] == s'.log[..|mid.log|][k];
        } else {
          TellsMember(s', b, id);
        }
        NameKept(mid, events[n], id);
      }
    }
  }

  lemma {:induction false} NameKept(s: Server, e: Event, id: nat)
    requires id in s.names
    ensures id in Step(s, e).names && Step(s, e).names[id] == s.names[id]
  {
    StepExtends(s, e);
  }

  lemma {:induction false} MemberStep(s: Server, e: Event, id: nat, room: string)
    requires ServerOk(s) && s.ix.In(id, room) && !Exits(e, id, room)
    ensures Step(s, e).ix.In(id, room) && id in s.names && NewFramesTell(s, Step(s, e)) && ServerOk(Step(s, e))
  {
    hide ServerOk, TellsAbout;
    Parts(s);
    StepOk(s, e);
    StepAppends(s, e);
    if Possible(s, e) {
      StepExactly(s, e);
    }
  }

  lemma {:induction false} TellsMember(s: Server, b: Broadcast, id: nat)
    requires ServerOk(s) && TellsAbout(b, s, b.room, b.epoch) && s.ix.In(id, b.room)
    ensures id in b.recipients && id in s.names && s.names[id] in b.members
  {
    Parts(s);
  }

  /** No connection of the user is in the room. */
  ghost predicate Absent(s: Server, user: string, room: string) {
    forall j | s.ix.In(j, room) :: j in s.names && s.names[j] != user
  }

  /** The event is not one by which a connection of the user joins the room. */
  ghost predicate NotJoinedBy(s: Server, e: Event, user: string, room: string) {
    e.Joined? && e.room == room && e.id in s.names ==> s.names[e.id] != user
  }

  lemma {:induction false} AbsentStep(s: Server, e: Event, user: string, room: string)
    requires ServerOk(s) && Absent(s, user, room) && NotJoinedBy(s, e, user, room)
    ensures Absent(Step(s, e), user, room) && NewFramesTell(s, Step(s, e))
  {
    hide ServerOk, TellsAbout, Step;
    var s' := Step(s, e);
    StepAppends(s, e);
    StepExtends(s, e);
    if Possible(s, e) {
      StepExactly(s, e);
      forall j | s'.ix.In(j, room) ensures j in s'.names && s'.names[j] != user {
        assert s.ix.In(j, room) || Enters(s, e, j, room);
      }
    } else {
      Impossible(s, e);
    }
  }

  lemma {:induction false} Impossible(s: Server, e: Event)
    requires !Possible(s, e)
    ensures Step(s, e) == s
  {
  }

  /** Once a user is out of a room, no frame of the room lists the user until one of its connections joins again. */
  lemma {:induction false} UnlistedUntilJoined(s: Server, events: seq<Event>, user: string, room: string, b: Broadcast)
    requires ServerOk(s) && Absent(s, user, room)
    requires forall i | 0 <= i < |events| :: NotJoinedBy(RunFrom(s, events[..i]), events[i], user, room)
    ensures Absent(RunFrom(s, events), user, room)
    ensures SentIn(s, RunFrom(s, events), b) && b.room == room ==> user !in b.members
    decreases |events|
  {
    hide ServerOk, Step, TellsAbout, NotJoinedBy, Absent;
    if events != [] {
      var n := |events| - 1;
      var mid := RunFrom(s, events[..n]);
      var s' := RunFrom(s, events);
      forall i | 0 <= i < n ensures NotJoinedBy(RunFrom(s, events[..n][..i]), events[..n][i], user, room) {
        assert events[..n][..i] == events[..i];
      }
      UnlistedUntilJoined(s, events[..n], user, room, b);
      RunFromOk(s, events[..n]);
      AbsentStep(mid, events[n], user, room);
      if SentIn(s, s', b) && b.room == room {
        var k :| |s.log| <= k < |s'.log| && s'.log[k] == b;
        if k < |mid.log| {
          assert mid.log[k] == s'.log[..|mid.log|][k];
        } else {
          TellsAbsence(s', b, user);
        }
      }
    }
  }

  lemma {:induction false} TellsAbsence(s: Server, b: Broadcast, user: string)
    requires TellsAbout(b, s, b.room, b.epoch) && Absent(s, user, b.room)
    ensures user !in b.members
  {
  }

  /** In a reachable state the frame of a room's current epoch tells about exactly the state. */
  lemma {:induction false} CurrentFrameTells(s: Server, b: Broadcast)
    requires ServerOk(s) && b in s.log && IsCurrent(s, b)
    ensures TellsAbout(b, s, b.room, b.epoch)
  {
    assert Describes(s, b);
    AnnounceExactly(s, b.room);
    var a := s.Announce(b.room).log[|s.log|];
    assert a.members == b.members && a.recipients == b.recipients;
  }
}
