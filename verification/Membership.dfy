/**
 The server's two-way room membership index, the current-room table, and the epoch steps that
 announce every membership change.
 */
module Membership {
  // ---- the two-way index -----------------------------------------------------------------

  datatype Index = Index(rooms: map<string, set<nat>>, connRooms: map<nat, set<string>>) {
    function MembersOf(room: string): set<nat> {
      if room in rooms then rooms[room] else {}
    }

    function RoomsOf(id: nat): set<string> {
      if id in connRooms then connRooms[id] else {}
    }

    predicate In(id: nat, room: string) {
      id in MembersOf(room)
    }

    predicate Lists(id: nat, room: string) {
      room in RoomsOf(id)
    }

    /** The two tables are inverse relations, and no room is kept without members. */
    ghost predicate Valid() {
      && (forall id: nat, r: string :: In(id, r) <==> Lists(id, r))
      && (forall r | r in rooms :: rooms[r] != {})
    }

    function Add(id: nat, room: string): Index {
      Index(rooms[room := MembersOf(room) + {id}], connRooms[id := RoomsOf(id) + {room}])
    }

    /** Take `id` out of one entry of the room table, dropping the entry when it becomes empty. */
    function WithoutMember(id: nat, room: string): map<string, set<nat>> {
      var left := MembersOf(room) - {id};
      if left == {} then rooms - {room} else rooms[room := left]
    }

    function RemoveOne(id: nat, room: string): Index {
      Index(WithoutMember(id, room), if id in connRooms then connRooms[id := connRooms[id] - {room}] else connRooms)
    }

    /** Take `id` out of each of the rooms in `done`. */
    function Cleared(id: nat, done: set<string>): map<string, set<nat>> {
      map r | r in rooms && (r in done ==> rooms[r] - {id} != {})
           :: if r in done then rooms[r] - {id} else rooms[r]
    }

    function RemoveAll(id: nat): Index {
      if id !in connRooms then this else Index(Cleared(id, connRooms[id]), connRooms - {id})
    }

    /** Each update changes exactly the pairs it names and keeps the index valid. */
    lemma {:induction false} AddExact(id: nat, room: string)
      requires Valid()
      ensures Add(id, room).Valid()
      ensures forall j, r :: Add(id, room).In(j, r) <==> In(j, r) || (j == id && r == room)
    {
      var after := Add(id, room);
      forall j: nat, r: string
        ensures after.In(j, r) <==> In(j, r) || (j == id && r == room)
        ensures after.In(j, r) <==> after.Lists(j, r)
      {
        assert In(j, r) <==> Lists(j, r);
      }
    }

    lemma {:induction false} RemoveOneExact(id: nat, room: string)
      requires Valid()
      ensures RemoveOne(id, room).Valid()
      ensures forall j, r :: RemoveOne(id, room).In(j, r) <==> In(j, r) && !(j == id && r == room)
    {
      var after := RemoveOne(id, room);
      forall j: nat, r: string
        ensures after.In(j, r) <==> In(j, r) && !(j == id && r == room)
        ensures after.In(j, r) <==> after.Lists(j, r)
      {
        assert In(j, r) <==> Lists(j, r);
      }
    }

    lemma {:induction false} RemoveAllExact(id: nat)
      requires Valid()
      ensures RemoveAll(id).Valid()
      ensures forall j, r :: RemoveAll(id).In(j, r) <==> In(j, r) && j != id
    {
      var after := RemoveAll(id);
      forall j: nat, r: string
        ensures after.In(j, r) <==> In(j, r) && j != id
        ensures after.In(j, r) <==> after.Lists(j, r)
      {
        assert In(id, r) <==> Lists(id, r);
        assert In(j, r) <==> Lists(j, r);
      }
    }

    lemma {:induction false} ClearOneMore(id: nat, done: set<string>, room: string)
      requires room !in done
      ensures Cleared(id, done + {room}) == Index(Cleared(id, done), connRooms).WithoutMember(id, room)
    {
    }
  }

  class ConnectionManager {
    var live: set<nat>
    var rooms: map<string, set<nat>>
    var connRooms: map<nat, set<string>>

    function State(): Index
      reads this
    {
      Index(rooms, connRooms)
    }

    constructor ()
      ensures live == {} && State() == Index(map[], map[]) && State().Valid()
    {
      live, rooms, connRooms := {}, map[], map[];
    }

    method AddToRoom(id: nat, room: string)
      modifies this`rooms, this`connRooms
      ensures State() == old(State()).Add(id, room)
    {
      rooms := rooms[room := State().MembersOf(room) + {id}];
      connRooms := connRooms[id := State().RoomsOf(id) + {room}];
    }

    method RemoveFromRoom(id: nat, room: string)
      modifies this`rooms, this`connRooms
      ensures State() == old(State()).RemoveOne(id, room)
    {
      var members := (if room in rooms then rooms[room] else {}) - {id};
      if members == {} {
        rooms := rooms - {room};
      } else {
        rooms := rooms[room := members];
      }
      if id in connRooms {
        connRooms := connRooms[id := connRooms[id] - {room}];
      }
    }

    /** Walk the connection's own room set, in any order, erasing it from each room. */
    method RemoveFromAllRooms(id: nat)
      modifies this`rooms, this`connRooms
      ensures State() == old(State()).RemoveAll(id)
    {
      if id !in connRooms {
        return;
      }
      ghost var before := State();
      var mine := connRooms[id];
      var todo := mine;
      assert before.Cleared(id, mine - todo) == rooms;
      while todo != {}
        invariant todo <= mine && connRooms == before.connRooms
        invariant rooms == before.Cleared(id, mine - todo)
        decreases |todo|
      {
        var room :| room in todo;
        before.ClearOneMore(id, mine - todo, room);
        assert mine - (todo - {room}) == mine - todo + {room};
        var members := (if room in rooms then rooms[room] else {}) - {id};
        if members == {} {
          rooms := rooms - {room};
        } else {
          rooms := rooms[room := members];
        }
        todo := todo - {room};
      }
      assert mine - {} == mine;
      connRooms := connRooms - {id};
    }

    /** A connection that goes away. */
    method Remove(id: nat)
      modifies this
      ensures live == old(live) - {id}
      ensures State() == if id in old(live) then old(State()).RemoveAll(id) else old(State())
    {
      if id in live {
        RemoveFromAllRooms(id);
        live := live - {id};
      }
    }

    /** The rooms of a connection, in some order. */
    method GetRooms(id: nat) returns (list: seq<string>)
      ensures IsListing(list, State().RoomsOf(id))
    {
      var todo := State().RoomsOf(id);
      list := [];
      while todo != {}
        invariant todo <= State().RoomsOf(id)
        invariant IsListing(list, State().RoomsOf(id) - todo)
        decreases |todo|
      {
        var r :| r in todo;
        list := list + [r];
        todo := todo - {r};
      }
      assert State().RoomsOf(id) - {} == State().RoomsOf(id);
    }
  }

  ghost predicate IsListing(list: seq<string>, all: set<string>) {
    && (forall r :: r in list <==> r in all)
    && (forall i, j | 0 <= i < j < |list| :: list[i] != list[j])
  }

  // ---- epoch steps -----------------------------------------------------------------------

  /** A ROOM_MEMBERSHIP frame: the new epoch, the member names, and the connections it went to. */
  datatype Broadcast = Broadcast(room: string, epoch: nat, members: set<string>, recipients: set<nat>)

  /** `names` holds the authenticated connections; `epochs` the rooms that exist in storage. */
  datatype Server = Server(live: set<nat>, names: map<nat, string>, ix: Index, current: map<nat, string>,
                           epochs: map<string, nat>, log: seq<Broadcast>)
  {
    function LiveIn(room: string): set<nat> {
      set id | id in ix.MembersOf(room) && id in live
    }

    function UsersOf(room: string): set<string> {
      set id | id in LiveIn(room) && id in names :: names[id]
    }

    /** `broadcast_membership`: bump the stored epoch, then tell the room; nothing for an unknown room. */
    function Announce(room: string): Server {
      if room !in epochs then this
      else
        var epoch := epochs[room] + 1;
        this.(epochs := epochs[room := epoch],
              log := log + [Broadcast(room, epoch, UsersOf(room), LiveIn(room))])
    }

    function AnnounceAll(rooms: seq<string>): Server {
      if rooms == [] then this
      else AnnounceAll(rooms[..|rooms| - 1]).Announce(rooms[|rooms| - 1])
    }

    function Join(id: nat, room: string): Server {
      if id !in names then this
      else
        this.(epochs := if room in epochs then epochs else epochs[room := 1],
              ix := ix.Add(id, room), current := current[id := room]).Announce(room)
    }

    function CurrentOf(id: nat): string {
      if id in current then current[id] else ""
    }

    /** `back` is the room that `rooms.back()` happens to name, or empty when none is left. */
    function Leave(id: nat, room: string, back: string): Server {
      if id !in names then this
      else
        this.(ix := ix.RemoveOne(id, room),
              current := current[id := if CurrentOf(id) == room then back else CurrentOf(id)]).Announce(room)
    }

    ghost predicate IsBack(id: nat, room: string, back: string) {
      var left := ix.RemoveOne(id, room).RoomsOf(id);
      if left == {} then back == "" else back in left
    }

    /** `order` lists the connection's rooms. */
    function LeaveAll(id: nat, order: seq<string>): Server {
      var s := this.(ix := ix.RemoveAll(id)).AnnounceAll(order);
      s.(current := s.current - {id})
    }

    /** The error handler: authenticated connections leave everything first. */
    function Disconnect(id: nat, order: seq<string>): Server {
      var s := if id in names then LeaveAll(id, order) else this;
      s.(live := s.live - {id}, ix := if id in s.live then s.ix.RemoveAll(id) else s.ix)
    }
  }

  const STARTED := Server({}, map[], Index(map[], map[]), map[], map[], [])

  class RoomManager {
    const conns: ConnectionManager
    ghost var names: map<nat, string>
    var current: map<nat, string>
    var epochs: map<string, nat>
    ghost var log: seq<Broadcast>

    ghost function State(): Server
      reads this, conns
    {
      Server(conns.live, names, conns.State(), current, epochs, log)
    }

    constructor (c: ConnectionManager)
      ensures conns == c
      ensures State() == Server(c.live, map[], c.State(), map[], map[], [])
    {
      conns := c;
      names, current, epochs, log := map[], map[], map[], [];
    }

    /** Bump the epoch and send the member list; the frames sent are recorded in `log`. */
    method BroadcastMembership(room: string)
      modifies this`epochs, this`log
      ensures State() == old(State()).Announce(room)
    {
      if room in epochs {
        ghost var s := State();
        epochs := epochs[room := epochs[room] + 1];
        log := log + [Broadcast(room, epochs[room], s.UsersOf(room), s.LiveIn(room))];
      }
    }

    method JoinRoom(id: nat, authenticated: bool, room: string) returns (ok: bool)
      requires authenticated <==> id in names
      modifies this, conns
      ensures ok == authenticated && State() == old(State()).Join(id, room)
    {
      if !authenticated {
        return false;
      }
      if room !in epochs {
        epochs := epochs[room := 1];
      }
      conns.AddToRoom(id, room);
      current := current[id := room];
      BroadcastMembership(room);
      return true;
    }

    method LeaveRoom(id: nat, authenticated: bool, room: string) returns (ok: bool, ghost back: string)
      requires authenticated <==> id in names
      modifies this, conns
      ensures ok == authenticated && old(State()).IsBack(id, room, back)
      ensures State() == old(State()).Leave(id, room, back)
    {
      back := AnyBack(State(), id, room);
      if !authenticated {
        return false, back;
      }
      conns.RemoveFromRoom(id, room);
      var now := if id in current then current[id] else "";
      if now == room {
        var rooms := conns.GetRooms(id);
        var last := if rooms == [] then "" else rooms[|rooms| - 1];
        assert rooms != [] ==> last in rooms;
        back := last;
        current := current[id := last];
      } else {
        current := current[id := now];
      }
      BroadcastMembership(room);
      return true, back;
    }

    method LeaveAllRooms(id: nat) returns (ghost order: seq<string>)
      modifies this, conns
      ensures IsListing(order, old(State()).ix.RoomsOf(id))
      ensures State() == old(State()).LeaveAll(id, order)
    {
      var rooms := conns.GetRooms(id);
      order := rooms;
      conns.RemoveFromAllRooms(id);
      ghost var s := State();
      for i := 0 to |rooms|
        invariant current == old(current) && State() == s.AnnounceAll(rooms[..i])
      {
        assert rooms[..i + 1][..i] == rooms[..i];
        BroadcastMembership(rooms[i]);
      }
      assert rooms[..|rooms|] == rooms;
      AnnounceAllFrame(s, rooms);
      current := current - {id};
    }
  }

  lemma {:induction false} AnyBack(s: Server, id: nat, room: string) returns (back: string)
    ensures s.IsBack(id, room, back)
  {
    var left := s.ix.RemoveOne(id, room).RoomsOf(id);
    if left == {} {
      back := "";
    } else {
      back :| back in left;
    }
  }

  lemma {:induction false} AnnounceAllFrame(s: Server, rooms: seq<string>)
    ensures var s' := s.AnnounceAll(rooms);
      && s'.live == s.live && s'.names == s.names && s'.ix == s.ix
      && s'.current == s.current && s'.epochs.Keys == s.epochs.Keys
    decreases |rooms|
  {
    if rooms != [] {
      AnnounceAllFrame(s, rooms[..|rooms| - 1]);
    }
  }

  // ---- runs ------------------------------------------------------------------------------

  datatype Event =
    | Connected(id: nat)
    | LoggedIn(id: nat, name: string)
    | Joined(id: nat, room: string)
    | Left(id: nat, room: string, back: string)
    | LeftAll(id: nat, order: seq<string>)
    | Disconnected(id: nat, order: seq<string>)

  /** Connection ids are never reused, and only live connections issue commands. */
  ghost predicate Possible(s: Server, e: Event) {
    match e
    case Connected(id) => id !in s.live && id !in s.names && s.ix.RoomsOf(id) == {}
    case LoggedIn(id, _) => id in s.live && id !in s.names
    case Joined(id, room) => id in s.live && room != ""
    case Left(id, room, back) => id in s.live && s.IsBack(id, room, back)
    case LeftAll(id, order) => id in s.live && id in s.names && IsListing(order, s.ix.RoomsOf(id))
    case Disconnected(id, order) => id in s.live && IsListing(order, s.ix.RoomsOf(id))
  }

  ghost function Step(s: Server, e: Event): Server {
    if !Possible(s, e) then s
    else match e
      case Connected(id) => s.(live := s.live + {id})
      case LoggedIn(id, name) => s.(names := s.names[id := name])
      case Joined(id, room) => s.Join(id, room)
      case Left(id, room, back) => s.Leave(id, room, back)
      case LeftAll(id, order) => s.LeaveAll(id, order)
      case Disconnected(id, order) => s.Disconnect(id, order)
  }

  ghost function Run(events: seq<Event>): Server {
    if events == [] then STARTED else Step(Run(events[..|events| - 1]), events[|events| - 1])
  }

  /** A connection's current room is empty or one it is in. */
  ghost predicate CurrentOk(s: Server) {
    forall id | id in s.current :: s.current[id] == "" || s.ix.Lists(id, s.current[id])
  }

  /** Only live, authenticated connections are in rooms, and every room with members exists in storage. */
  ghost predicate MembersOk(s: Server) {
    && (forall id: nat, r: string | s.ix.In(id, r) :: id in s.live && id in s.names && r in s.epochs)
    && (forall id | id in s.current :: id in s.names)
  }

  /** Along the log the epochs of each room increase strictly, up to the stored epoch. */
  ghost predicate EpochsOk(s: Server) {
    && (forall i | 0 <= i < |s.log| :: s.log[i].room in s.epochs && s.log[i].epoch <= s.epochs[s.log[i].room])
    && (forall i, j | 0 <= i < j < |s.log| && s.log[i].room == s.log[j].room :: s.log[i].epoch < s.log[j].epoch)
  }

  predicate IsCurrent(s: Server, b: Broadcast) {
    b.room in s.epochs && b.epoch == s.epochs[b.room]
  }

  predicate Describes(s: Server, b: Broadcast) {
    b.members == s.UsersOf(b.room) && b.recipients == s.LiveIn(b.room)
  }

  /** Outside `dirty`, the frame with a room's current epoch lists exactly the current members. */
  ghost predicate AnnouncedOutside(s: Server, dirty: set<string>) {
    forall b | b in s.log && IsCurrent(s, b) && b.room !in dirty :: Describes(s, b)
  }

  /** Outside `dirty`, every room with members has announced its current epoch. */
  ghost predicate CoveredOutside(s: Server, dirty: set<string>) {
    forall r | r in s.ix.rooms && r !in dirty :: exists b :: b in s.log && b.room == r && IsCurrent(s, b)
  }

  /** Every frame went only to connections whose user it lists. */
  ghost predicate RecipientsOk(s: Server) {
    forall b, id | b in s.log && id in b.recipients :: id in s.names && s.names[id] in b.members
  }

  ghost predicate OkOutside(s: Server, dirty: set<string>) {
    && s.ix.Valid() && CurrentOk(s) && MembersOk(s) && EpochsOk(s) && RecipientsOk(s)
    && AnnouncedOutside(s, dirty) && CoveredOutside(s, dirty)
  }

  ghost predicate ServerOk(s: Server) {
    OkOutside(s, {})
  }

  /** The frame with the new epoch of `room` is the one just sent; other rooms keep theirs. */
  lemma {:induction false} AnnounceDescribes(s: Server, room: string, dirty: set<string>, x: Broadcast)
    requires OkOutside(s, dirty) && room in s.epochs
    requires x in s.Announce(room).log && IsCurrent(s.Announce(room), x) && x.room !in dirty - {room}
    ensures Describes(s.Announce(room), x)
  {
    hide CoveredOutside, CurrentOk, MembersOk;
    if x.room != room {
      assert x in s.log && IsCurrent(s, x) && Describes(s, x);
    } else {
      assert forall y | y in s.log && y.room == room :: y.epoch <= s.epochs[room];
    }
  }

  lemma {:induction false} AnnounceCovers(s: Server, room: string, dirty: set<string>, r: string)
    requires CoveredOutside(s, dirty) && room in s.epochs
    requires r in s.Announce(room).ix.rooms && r !in dirty - {room}
    ensures exists x :: x in s.Announce(room).log && x.room == r && IsCurrent(s.Announce(room), x)
  {
    var s' := s.Announce(room);
    if r == room {
      var b := s'.log[|s.log|];
      assert b in s'.log && IsCurrent(s', b);
    } else {
      var x :| x in s.log && x.room == r && IsCurrent(s, x);
      assert x in s'.log && IsCurrent(s', x);
    }
  }

  lemma {:induction false} AnnounceReachesMembers(s: Server, room: string)
    requires RecipientsOk(s) && MembersOk(s)
    ensures RecipientsOk(s.Announce(room))
  {
    var s' := s.Announce(room);
    forall b, id | b in s'.log && id in b.recipients ensures id in s.names && s.names[id] in b.members {
      if b !in s.log {
        assert s.ix.In(id, room);
        assert id in s.LiveIn(room);
      }
    }
  }

  /** Announcing a room settles it, and only raises that room's epoch. */
  lemma {:induction false} AnnounceStep(s: Server, room: string, dirty: set<string>)
    requires OkOutside(s, dirty)
    ensures OkOutside(s.Announce(room), dirty - {room})
  {
    hide Describes, IsCurrent, RecipientsOk;
    var s' := s.Announce(room);
    AnnounceReachesMembers(s, room);
    if room in s.epochs {
      forall x | x in s'.log && IsCurrent(s', x) && x.room !in dirty - {room} ensures Describes(s', x) {
        AnnounceDescribes(s, room, dirty, x);
      }
      forall r | r in s'.ix.rooms && r !in dirty - {room}
        ensures exists x :: x in s'.log && x.room == r && IsCurrent(s', x)
      {
        AnnounceCovers(s, room, dirty, r);
      }
    } else {
      forall r | r in s.ix.rooms ensures r in s.epochs {
        var id :| id in s.ix.rooms[r];
        assert s.ix.In(id, r);
      }
    }
  }

  lemma {:induction false} AnnounceAllStep(s: Server, rooms: seq<string>, dirty: set<string>)
    requires OkOutside(s, dirty)
    ensures OkOutside(s.AnnounceAll(rooms), dirty - (set r | r in rooms))
    decreases |rooms|
  {
    hide OkOutside;
    var all := set r | r in rooms;
    if rooms == [] {
      assert dirty - all == dirty;
    } else {
      var n := |rooms| - 1;
      AnnounceAllStep(s, rooms[..n], dirty);
      AnnounceStep(s.AnnounceAll(rooms[..n]), rooms[n], dirty - (set r | r in rooms[..n]));
      assert rooms == rooms[..n] + [rooms[n]];
      assert dirty - (set r | r in rooms[..n]) - {rooms[n]} == dirty - all;
    }
  }

  /** A change of membership that touches only the rooms in `dirty` leaves the others described. */
  lemma {:induction false} OthersUndisturbed(s: Server, s1: Server, dirty: set<string>)
    requires ServerOk(s) && s1.ix.Valid() && CurrentOk(s1) && MembersOk(s1)
    requires s1.live == s.live && s1.names == s.names && s1.log == s.log
    requires forall r | r in s.epochs :: r in s1.epochs && s1.epochs[r] == s.epochs[r]
    requires forall r | r in s1.epochs && r !in s.epochs :: r in dirty
    requires forall j: nat, r: string | r !in dirty :: s1.ix.In(j, r) <==> s.ix.In(j, r)
    ensures OkOutside(s1, dirty)
  {
    forall r | r !in dirty ensures s1.LiveIn(r) == s.LiveIn(r) && s1.UsersOf(r) == s.UsersOf(r) {
      forall j: nat ensures j in s1.ix.MembersOf(r) <==> j in s.ix.MembersOf(r) {
        assert s1.ix.In(j, r) <==> s.ix.In(j, r);
      }
    }
    forall b | b in s1.log && IsCurrent(s1, b) && b.room !in dirty ensures Describes(s1, b) {
      assert IsCurrent(s, b) && Describes(s, b);
    }
    forall r | r in s1.ix.rooms && r !in dirty ensures exists b :: b in s1.log && b.room == r && IsCurrent(s1, b) {
      var id :| id in s1.ix.rooms[r];
      assert s1.ix.In(id, r) && s.ix.In(id, r);
      var b :| b in s.log && b.room == r && IsCurrent(s, b);
      assert IsCurrent(s1, b);
    }
  }

  lemma {:induction false} JoinOk(s: Server, id: nat, room: string)
    requires ServerOk(s) && id in s.live
    ensures ServerOk(s.Join(id, room))
  {
    hide OkOutside, AnnouncedOutside, CoveredOutside, EpochsOk, Index.Valid;
    if id in s.names {
      Parts(s);
      var s1 := s.(epochs := if room in s.epochs then s.epochs else s.epochs[room := 1],
                   ix := s.ix.Add(id, room), current := s.current[id := room]);
      s.ix.AddExact(id, room);
      forall j: nat, r: string | s1.ix.In(j, r) ensures j in s1.live && j in s1.names && r in s1.epochs {
        assert s.ix.In(j, r) || (j == id && r == room);
      }
      assert CurrentOk(s1);
      OthersUndisturbed(s, s1, {room});
      AnnounceStep(s1, room, {room});
      assert {room} - {room} == {};
    }
  }

  lemma {:induction false} Parts(s: Server)
    requires ServerOk(s)
    ensures s.ix.Valid() && CurrentOk(s) && MembersOk(s)
  {
  }

  lemma {:induction false} LeaveOk(s: Server, id: nat, room: string, back: string)
    requires ServerOk(s) && s.IsBack(id, room, back)
    ensures ServerOk(s.Leave(id, room, back))
  {
    hide OkOutside, AnnouncedOutside, CoveredOutside, EpochsOk, Index.Valid;
    if id in s.names {
      Parts(s);
      var s1 := s.(ix := s.ix.RemoveOne(id, room),
                   current := s.current[id := if s.CurrentOf(id) == room then back else s.CurrentOf(id)]);
      s.ix.RemoveOneExact(id, room);
      forall j: nat, r: string | s1.ix.In(j, r) ensures j in s1.live && j in s1.names && r in s1.epochs {
        assert s.ix.In(j, r);
      }
      assert CurrentOk(s1);
      OthersUndisturbed(s, s1, {room});
      AnnounceStep(s1, room, {room});
      assert {room} - {room} == {};
    }
  }

  lemma {:induction false} LeaveAllOk(s: Server, id: nat, order: seq<string>)
    requires ServerOk(s) && IsListing(order, s.ix.RoomsOf(id))
    ensures ServerOk(s.LeaveAll(id, order))
    ensures s.LeaveAll(id, order).ix == s.ix.RemoveAll(id) && s.LeaveAll(id, order).ix.Valid()
    ensures forall r :: !s.LeaveAll(id, order).ix.In(id, r)
    ensures s.LeaveAll(id, order).live == s.live && s.LeaveAll(id, order).names == s.names
  {
    hide AnnouncedOutside, CoveredOutside, EpochsOk, Index.Valid;
    Parts(s);
    var s1 := s.(ix := s.ix.RemoveAll(id), current := s.current - {id});
    s.ix.RemoveAllExact(id);
    var rooms := set r | r in order;
    assert rooms == s.ix.RoomsOf(id);
    forall j: nat, r: string | s1.ix.In(j, r) ensures j in s1.live && j in s1.names && r in s1.epochs {
      assert s.ix.In(j, r);
    }
    forall j | j in s1.current ensures s1.current[j] == "" || s1.ix.Lists(j, s1.current[j]) {
      assert s1.current[j] == s.current[j];
      assert s.current[j] == "" || s.ix.In(j, s.current[j]);
    }
    forall j: nat, r: string | r !in rooms ensures s1.ix.In(j, r) <==> s.ix.In(j, r) {
      assert s.ix.In(j, r) ==> s.ix.Lists(j, r);
    }
    OthersUndisturbed(s, s1, rooms);
    AnnounceAllStep(s1, order, rooms);
    assert rooms - (set r | r in order) == {};
    AnnounceIgnoresCurrent(s.(ix := s.ix.RemoveAll(id)), order, s.current - {id});
    AnnounceAllFrame(s1, order);
    AnnounceAllFrame(s.(ix := s.ix.RemoveAll(id)), order);
  }

  lemma {:induction false} AnnounceIgnoresCurrent(s: Server, rooms: seq<string>, current: map<nat, string>)
    ensures s.(current := current).AnnounceAll(rooms) == s.AnnounceAll(rooms).(current := current)
    decreases |rooms|
  {
    if rooms != [] {
      AnnounceIgnoresCurrent(s, rooms[..|rooms| - 1], current);
    }
  }

  /** A connection that is in no room and has no current room may come, log in or go unnoticed. */
  lemma {:induction false} OutsiderOk(s: Server, s1: Server, id: nat)
    requires ServerOk(s) && forall r :: !s.ix.In(id, r)
    requires s1.ix.Valid() && s1.current == s.current && s1.epochs == s.epochs && s1.log == s.log
    requires forall j: nat, r: string :: s1.ix.In(j, r) <==> s.ix.In(j, r)
    requires forall j | j != id :: (j in s1.live <==> j in s.live) && (j in s1.names <==> j in s.names)
    requires forall j | j in s.names :: j in s1.names && s1.names[j] == s.names[j]
    ensures ServerOk(s1)
  {
    forall r ensures s1.LiveIn(r) == s.LiveIn(r) && s1.UsersOf(r) == s.UsersOf(r) {
      assert !s.ix.In(id, r);
      forall j: nat ensures j in s1.ix.MembersOf(r) <==> j in s.ix.MembersOf(r) {
        assert s1.ix.In(j, r) <==> s.ix.In(j, r);
      }
    }
    forall j: nat, r: string | s1.ix.In(j, r) ensures j in s1.live && j in s1.names && r in s1.epochs {
      assert s.ix.In(j, r) && j != id;
    }
    forall j | j in s1.current ensures s1.current[j] == "" || s1.ix.Lists(j, s1.current[j]) {
      assert s.current[j] == "" || s.ix.In(j, s.current[j]);
    }
    forall b | b in s1.log && IsCurrent(s1, b) ensures Describes(s1, b) {
      assert IsCurrent(s, b) && Describes(s, b);
    }
    forall r | r in s1.ix.rooms ensures exists b :: b in s1.log && b.room == r && IsCurrent(s1, b) {
      var j :| j in s1.ix.rooms[r];
      assert s1.ix.In(j, r) && s.ix.In(j, r);
      var b :| b in s.log && b.room == r && IsCurrent(s, b);
      assert IsCurrent(s1, b);
    }
  }

  lemma {:induction false} DisconnectOk(s: Server, id: nat, order: seq<string>)
    requires ServerOk(s) && id in s.live && IsListing(order, s.ix.RoomsOf(id))
    ensures ServerOk(s.Disconnect(id, order))
  {
    hide OkOutside, Server.LeaveAll, Index.Valid;
    Parts(s);
    if id in s.names {
      LeaveAllOk(s, id, order);
    } else {
      forall r ensures !s.ix.In(id, r) {
      }
    }
    var mid := if id in s.names then s.LeaveAll(id, order) else s;
    Parts(mid);
    mid.ix.RemoveAllExact(id);
    OutsiderOk(mid, s.Disconnect(id, order), id);
  }

  lemma {:induction false} StepOk(s: Server, e: Event)
    requires ServerOk(s)
    ensures ServerOk(Step(s, e))
  {
    hide OkOutside, Server.Join, Server.Leave, Server.LeaveAll, Server.Disconnect, Index.Valid;
    Parts(s);
    if Possible(s, e) {
      match e
      case Connected(id) =>
        assert forall r :: !s.ix.Lists(id, r);
        OutsiderOk(s, Step(s, e), id);
      case LoggedIn(id, name) =>
        assert forall r :: !s.ix.In(id, r);
        OutsiderOk(s, Step(s, e), id);
      case Joined(id, room) => JoinOk(s, id, room);
      case Left(id, room, back) => LeaveOk(s, id, room, back);
      case LeftAll(id, order) => LeaveAllOk(s, id, order);
      case Disconnected(id, order) => DisconnectOk(s, id, order);
    }
  }

  /**
   In every reachable state: the tables are inverse with no empty room; current rooms are rooms
   the connection is in; broadcast epochs of a room strictly increase; and the frame with the
   current epoch of a room exists whenever the room has members and lists exactly them.
   */
  lemma {:induction false} ReachableOk(events: seq<Event>)
    ensures ServerOk(Run(events))
    decreases |events|
  {
    hide OkOutside, Step;
    if events == [] {
      StartedOk();
    } else {
      ReachableOk(events[..|events| - 1]);
      StepOk(Run(events[..|events| - 1]), events[|events| - 1]);
    }
  }

  lemma {:induction false} StartedOk()
    ensures ServerOk(STARTED)
  {
  }

  /** What was broadcast stays broadcast, and connections keep their user. */
  ghost predicate Extends(s: Server, s': Server) {
    && (forall b | b in s.log :: b in s'.log)
    && (forall id | id in s.names :: id in s'.names && s'.names[id] == s.names[id])
  }

  lemma {:induction false} AnnounceAllExtends(s: Server, rooms: seq<string>)
    ensures Extends(s, s.AnnounceAll(rooms))
    decreases |rooms|
  {
    if rooms != [] {
      AnnounceAllExtends(s, rooms[..|rooms| - 1]);
    }
  }

  lemma {:induction false} StepExtends(s: Server, e: Event)
    ensures Extends(s, Step(s, e))
  {
    if Possible(s, e) && (e.LeftAll? || e.Disconnected?) {
      AnnounceAllExtends(s.(ix := s.ix.RemoveAll(e.id)), e.order);
    }
  }

  /** The epoch determines the member list. */
  lemma {:induction false} EpochDeterminesMembers(s: Server, a: Broadcast, b: Broadcast)
    requires ServerOk(s) && a in s.log && b in s.log && a.room == b.room && a.epoch == b.epoch
    ensures a == b
  {
  }
}
