/** The room system of a conference: a repository of rooms and of the participant-to-room
    mapping, and the batch use case that moves participants between rooms. A participant is
    mapped to at most one room, and only to a room that exists. A write to a room that does
    not exist fails with the repository's concurrency failure; so does a write that a
    concurrent change of the same data invalidates, which the model takes as an input. */
module Rooms {
  import opened Common

  /** Rooms are stored per conference. */
  datatype RoomKey = RoomKey(conferenceId: string, roomId: string)

  /** One requested move: a participant id of the request's conference and its target room. */
  datatype Assignment = Assignment(participantId: string, roomId: string)

  /** The mapping after a batch of moves, and the transition tag of every participant moved. */
  datatype BatchOutcome = BatchOutcome(mappings: map<Participant, string>, changes: map<Participant, RoomChange>)

  /** Every mapped participant sits in an existing room of its own conference. */
  ghost predicate MappingsInRooms(rooms: set<RoomKey>, mappings: map<Participant, string>)
  {
    forall p :: p in mappings ==> RoomKey(p.conferenceId, mappings[p]) in rooms
  }

  /** The tag of a successful write, from the room the repository reports as the previous one. */
  function ChangeOf(previous: Option<string>, room: string): RoomChange
  {
    match previous
    case None => Joined(room)
    case Some(from) => Switched(from, room)
  }

  /** The room a transition leaves the participant in, if any. */
  function Destination(c: RoomChange): Option<string>
  {
    match c
    case Joined(room) => Some(room)
    case Switched(_, to) => Some(to)
    case Left(_) => None
  }

  /** Whether the write of one assignment succeeds: its target room exists and no concurrent
      change made the repository reject it. */
  predicate Succeeds(rooms: set<RoomKey>, conferenceId: string, a: Assignment, conflicted: bool)
  {
    RoomKey(conferenceId, a.roomId) in rooms && !conflicted
  }

  /** The assignments applied one after the other; `conflicts` holds the positions of the
      writes the repository rejects as concurrent. A write that fails is skipped and the
      others go on, and each success records the tag of that participant's move. */
  function Batch(rooms: set<RoomKey>, mappings: map<Participant, string>, conferenceId: string,
                 assignments: seq<Assignment>, conflicts: set<nat>): BatchOutcome
    decreases |assignments|
  {
    if assignments == [] then BatchOutcome(mappings, map[])
    else
      var before := Batch(rooms, mappings, conferenceId, assignments[..|assignments| - 1], conflicts);
      var a := assignments[|assignments| - 1];
      var p := Participant(conferenceId, a.participantId);
      if Succeeds(rooms, conferenceId, a, |assignments| - 1 in conflicts) then
        BatchOutcome(before.mappings[p := a.roomId], before.changes[p := ChangeOf(Get(before.mappings, p), a.roomId)])
      else before
  }

  /** The participants of a batch's notification are exactly those with a successful write. */
  lemma {:induction false} BatchChangesExactlySucceeded(rooms: set<RoomKey>, mappings: map<Participant, string>,
                                                        conferenceId: string, assignments: seq<Assignment>,
                                                        conflicts: set<nat>)
    ensures forall p :: p in Batch(rooms, mappings, conferenceId, assignments, conflicts).changes <==>
      exists i :: 0 <= i < |assignments| && Succeeds(rooms, conferenceId, assignments[i], i in conflicts)
                  && p == Participant(conferenceId, assignments[i].participantId)
    decreases |assignments|
  {
    if assignments != [] {
      var init := assignments[..|assignments| - 1];
      BatchChangesExactlySucceeded(rooms, mappings, conferenceId, init, conflicts);
      forall p
        ensures p in Batch(rooms, mappings, conferenceId, assignments, conflicts).changes <==>
          exists i :: 0 <= i < |assignments| && Succeeds(rooms, conferenceId, assignments[i], i in conflicts)
                      && p == Participant(conferenceId, assignments[i].participantId)
      {
        if p in Batch(rooms, mappings, conferenceId, init, conflicts).changes {
          var i :| 0 <= i < |init| && Succeeds(rooms, conferenceId, init[i], i in conflicts)
                   && p == Participant(conferenceId, init[i].participantId);
          assert assignments[i] == init[i];
        }
        if exists i :: 0 <= i < |assignments| && Succeeds(rooms, conferenceId, assignments[i], i in conflicts)
                       && p == Participant(conferenceId, assignments[i].participantId) {
          var i :| 0 <= i < |assignments| && Succeeds(rooms, conferenceId, assignments[i], i in conflicts)
                   && p == Participant(conferenceId, assignments[i].participantId);
          if i < |init| {
            assert init[i] == assignments[i];
          }
        }
      }
    }
  }

  /** After a batch, a moved participant sits in the room its tag names and any other
      participant keeps its previous room; no move is tagged as leaving. */
  lemma {:induction false} BatchMovesAgreeWithTags(rooms: set<RoomKey>, mappings: map<Participant, string>,
                                                   conferenceId: string, assignments: seq<Assignment>,
                                                   conflicts: set<nat>, p: Participant)
    ensures var out := Batch(rooms, mappings, conferenceId, assignments, conflicts);
      Get(out.mappings, p) == (if p in out.changes then Destination(out.changes[p]) else Get(mappings, p))
    decreases |assignments|
  {
    if assignments != [] {
      BatchMovesAgreeWithTags(rooms, mappings, conferenceId, assignments[..|assignments| - 1], conflicts, p);
    }
  }

  /** When no participant is named twice, each tag runs from the participant's room before
      the batch (Joined when it had none) to its room after it. */
  lemma {:induction false} BatchTagsRunFromPreviousRoom(rooms: set<RoomKey>, mappings: map<Participant, string>,
                                                        conferenceId: string, assignments: seq<Assignment>,
                                                        conflicts: set<nat>)
    requires forall i, j :: 0 <= i < j < |assignments| ==> assignments[i].participantId != assignments[j].participantId
    ensures var out := Batch(rooms, mappings, conferenceId, assignments, conflicts);
      forall p :: p in out.changes ==> p in out.mappings && out.changes[p] == ChangeOf(Get(mappings, p), out.mappings[p])
    decreases |assignments|
  {
    if assignments != [] {
      var init := assignments[..|assignments| - 1];
      var a := assignments[|assignments| - 1];
      var p := Participant(conferenceId, a.participantId);
      BatchTagsRunFromPreviousRoom(rooms, mappings, conferenceId, init, conflicts);
      BatchMovesAgreeWithTags(rooms, mappings, conferenceId, init, conflicts, p);
      BatchChangesExactlySucceeded(rooms, mappings, conferenceId, init, conflicts);
      forall i | 0 <= i < |init|
        ensures init[i].participantId != a.participantId
      {
        assert init[i] == assignments[i];
      }
      assert p !in Batch(rooms, mappings, conferenceId, init, conflicts).changes;
    }
  }

  /** A batch never maps anybody to a room that does not exist. */
  lemma {:induction false} BatchKeepsMappingsInRooms(rooms: set<RoomKey>, mappings: map<Participant, string>,
                                                     conferenceId: string, assignments: seq<Assignment>,
                                                     conflicts: set<nat>)
    requires MappingsInRooms(rooms, mappings)
    ensures MappingsInRooms(rooms, Batch(rooms, mappings, conferenceId, assignments, conflicts).mappings)
    decreases |assignments|
  {
    if assignments != [] {
      BatchKeepsMappingsInRooms(rooms, mappings, conferenceId, assignments[..|assignments| - 1], conflicts);
    }
  }

  /** Without any room of the conference, every write fails, whatever else happens
      concurrently: the mapping stays as it was and the batch publishes nothing. */
  lemma {:induction false} NoRoomsNoMoves(rooms: set<RoomKey>, mappings: map<Participant, string>,
                                          conferenceId: string, assignments: seq<Assignment>, conflicts: set<nat>)
    requires forall roomId :: RoomKey(conferenceId, roomId) !in rooms
    ensures Batch(rooms, mappings, conferenceId, assignments, conflicts) == BatchOutcome(mappings, map[])
    decreases |assignments|
  {
    if assignments != [] {
      NoRoomsNoMoves(rooms, mappings, conferenceId, assignments[..|assignments| - 1], conflicts);
    }
  }

  /** Three participants moved into one existing room, the write of the third rejected as
      concurrent: the first two are moved, the third keeps its room, and the notification
      names exactly the first two. */
  lemma OneConflictingWriteSkipped(rooms: set<RoomKey>, mappings: map<Participant, string>,
                                   conferenceId: string, roomId: string)
    requires RoomKey(conferenceId, roomId) in rooms
    ensures var out := Batch(rooms, mappings, conferenceId,
                             [Assignment("1", roomId), Assignment("2", roomId), Assignment("3", roomId)], {2});
      && out.changes.Keys == {Participant(conferenceId, "1"), Participant(conferenceId, "2")}
      && |out.changes| == 2
      && Get(out.mappings, Participant(conferenceId, "1")) == Some(roomId)
      && Get(out.mappings, Participant(conferenceId, "2")) == Some(roomId)
      && Get(out.mappings, Participant(conferenceId, "3")) == Get(mappings, Participant(conferenceId, "3"))
  {
    var assignments := [Assignment("1", roomId), Assignment("2", roomId), Assignment("3", roomId)];
    var p1, p2, p3 := Participant(conferenceId, "1"), Participant(conferenceId, "2"), Participant(conferenceId, "3");
    assert "1" != "2" && "1" != "3" && "2" != "3" by {
      assert "1"[0] != "2"[0] && "1"[0] != "3"[0] && "2"[0] != "3"[0];
    }
    var first, firstTwo := assignments[..1], assignments[..2];
    assert first == [Assignment("1", roomId)] && firstTwo == [Assignment("1", roomId), Assignment("2", roomId)];
    assert first[..0] == [] && firstTwo[..1] == first && assignments[..2] == firstTwo;
    assert 0 !in {2} && 1 !in {2} && 2 in {2};
    assert Batch(rooms, mappings, conferenceId, first[..0], {2}) == BatchOutcome(mappings, map[]);
    assert Succeeds(rooms, conferenceId, first[0], 0 in {2});
    var one := Batch(rooms, mappings, conferenceId, first, {2});
    assert one == BatchOutcome(mappings[p1 := roomId], map[p1 := ChangeOf(Get(mappings, p1), roomId)]);
    var two := Batch(rooms, mappings, conferenceId, firstTwo, {2});
    assert two == BatchOutcome(one.mappings[p2 := roomId], one.changes[p2 := ChangeOf(Get(one.mappings, p2), roomId)]);
    assert Batch(rooms, mappings, conferenceId, assignments, {2}) == two;
    assert two.changes.Keys == {p1, p2};
    assert |{p1, p2}| == 2;
  }

  /** The rooms of every conference but the given one. */
  function RoomsOutside(rooms: map<RoomKey, string>, conferenceId: string): (r: map<RoomKey, string>)
    ensures forall k :: k in r <==> k in rooms && k.conferenceId != conferenceId
    ensures forall k :: k in r ==> r[k] == rooms[k]
  {
    map k | k in rooms && k.conferenceId != conferenceId :: rooms[k]
  }

  /** The room mappings of the participants of every conference but the given one. */
  function MappingsOutside(mappings: map<Participant, string>, conferenceId: string): (r: map<Participant, string>)
    ensures forall p :: p in r <==> p in mappings && p.conferenceId != conferenceId
    ensures forall p :: p in r ==> r[p] == mappings[p]
  {
    map p | p in mappings && p.conferenceId != conferenceId :: mappings[p]
  }

  /** The rooms and the participant-to-room mapping, with the writes the room use cases make. */
  class RoomRepository {
    /** display name of every room */
    var rooms: map<RoomKey, string>
    /** the room of every participant that is in one */
    var mappings: map<Participant, string>

    ghost predicate Valid()
      reads this
    {
      MappingsInRooms(rooms.Keys, mappings)
    }

    constructor ()
      ensures Valid()
      ensures rooms == map[] && mappings == map[]
    {
      rooms := map[];
      mappings := map[];
    }

    method CreateRoom(conferenceId: string, roomId: string, displayName: string)
      requires Valid()
      modifies this
      ensures Valid()
      ensures rooms == old(rooms)[RoomKey(conferenceId, roomId) := displayName]
      ensures mappings == old(mappings)
    {
      rooms := rooms[RoomKey(conferenceId, roomId) := displayName];
    }

    /** Maps the participant to the room and returns its previous room; fails with a
        concurrency error, changing nothing, when the room does not exist or when
        `conflicted`, a concurrent change of the same data, makes the store reject the write. */
    method SetParticipantRoom(participant: Participant, roomId: string, conflicted: bool)
      returns (r: Result<Option<string>, ServiceError>)
      requires Valid()
      modifies this
      ensures Valid()
      ensures rooms == old(rooms)
      ensures r.Ok? <==> RoomKey(participant.conferenceId, roomId) in old(rooms) && !conflicted
      ensures r.Ok? ==> r.value == Get(old(mappings), participant) && mappings == old(mappings)[participant := roomId]
      ensures r.Err? ==> r.error == ConcurrencyFailure && mappings == old(mappings)
    {
      if RoomKey(participant.conferenceId, roomId) in rooms && !conflicted {
        r := Ok(Get(mappings, participant));
        mappings := mappings[participant := roomId];
      } else {
        r := Err(ConcurrencyFailure);
      }
    }

    /** Removes the participant from its room and returns that room. */
    method UnsetParticipantRoom(participant: Participant) returns (previous: Option<string>)
      requires Valid()
      modifies this
      ensures Valid()
      ensures previous == Get(old(mappings), participant)
      ensures rooms == old(rooms)
      ensures mappings == old(mappings) - {participant}
    {
      previous := Get(mappings, participant);
      mappings := mappings - {participant};
    }

    /** Deletes every room and every mapping of the conference at once, and lists the ids of
        the deleted rooms and of the participants that were in them. */
    method DeleteAllRoomsAndMappingsOfConference(conferenceId: string)
      returns (deletedRooms: seq<string>, deletedParticipants: seq<string>)
      requires Valid()
      modifies this
      ensures Valid()
      ensures Distinct(deletedRooms) && Distinct(deletedParticipants)
      ensures forall roomId :: roomId in deletedRooms <==> RoomKey(conferenceId, roomId) in old(rooms)
      ensures forall id :: id in deletedParticipants <==> Participant(conferenceId, id) in old(mappings)
      ensures rooms == RoomsOutside(old(rooms), conferenceId)
      ensures mappings == MappingsOutside(old(mappings), conferenceId)
      ensures forall roomId :: RoomKey(conferenceId, roomId) !in rooms
    {
      deletedRooms := Enumerate(set k | k in rooms && k.conferenceId == conferenceId :: k.roomId);
      deletedParticipants := Enumerate(set p | p in mappings && p.conferenceId == conferenceId :: p.id);
      rooms := RoomsOutside(rooms, conferenceId);
      mappings := MappingsOutside(mappings, conferenceId);
    }
  }

  /** The room-assignment use case: writes each assignment of the request in order, skips
      the ones whose write fails, and publishes one notification with the tag of every
      successful move, or nothing when no write succeeded. No error escapes. The writes at
      the positions in `conflicts` are the ones a concurrent change makes the store reject. */
  method SetParticipantRooms(repo: RoomRepository, mediator: Mediator, conferenceId: string,
                             assignments: seq<Assignment>, conflicts: set<nat>)
    requires repo.Valid()
    modifies repo, mediator
    ensures repo.Valid()
    ensures repo.rooms == old(repo.rooms)
    ensures repo.mappings == Batch(old(repo.rooms.Keys), old(repo.mappings), conferenceId, assignments, conflicts).mappings
    ensures var changes := Batch(old(repo.rooms.Keys), old(repo.mappings), conferenceId, assignments, conflicts).changes;
      mediator.log == old(mediator.log) + (if changes == map[] then [] else [ParticipantsRoomChanged(conferenceId, changes)])
  {
    var changes: map<Participant, RoomChange> := map[];
    var i := 0;
    while i < |assignments|
      invariant 0 <= i <= |assignments|
      invariant repo.Valid()
      invariant repo.rooms == old(repo.rooms)
      invariant Batch(old(repo.rooms.Keys), old(repo.mappings), conferenceId, assignments[..i], conflicts)
                == BatchOutcome(repo.mappings, changes)
      invariant mediator.log == old(mediator.log)
    {
      var p := Participant(conferenceId, assignments[i].participantId);
      var r := repo.SetParticipantRoom(p, assignments[i].roomId, i in conflicts);
      if r.Ok? {
        changes := changes[p := ChangeOf(r.value, assignments[i].roomId)];
      }
      assert assignments[..i + 1][..i] == assignments[..i];
      i := i + 1;
    }
    assert assignments[..i] == assignments;
    if changes != map[] {
      mediator.Publish(ParticipantsRoomChanged(conferenceId, changes));
    }
  }
}
