/** The lifecycle of conferences as the room system sees it: a conference is opened and
    closed, participants join and leave, rooms are created and participants moved. Opening a
    conference creates its default room and moves every joined participant there; a closed
    conference has no rooms and no room mappings, so creating rooms in it fails and joining it
    assigns no room. Every room change is announced with one transition tag per participant. */
module ConferenceControl {
  import opened Common
  import opened Rooms
  import opened JoinConference

  /** The id of the room every participant of an open conference starts in. */
  const DefaultRoomId := "default"
  const DefaultRoomName := "Default"

  /** A room to create: the display name the request carries and the fresh id the server
      generates for it. */
  datatype RoomCreation = RoomCreation(roomId: string, displayName: string)

  /** The ids of the participants joined to a conference. */
  function JoinedIds(sessions: map<string, Session>, conferenceId: string): set<string>
  {
    set id | id in sessions && sessions[id].conferenceId == conferenceId
  }

  /** One assignment per id, all to the same room. */
  function ToRoom(ids: seq<string>, roomId: string): (assignments: seq<Assignment>)
    ensures |assignments| == |ids|
    ensures forall i :: 0 <= i < |ids| ==> assignments[i] == Assignment(ids[i], roomId)
  {
    seq(|ids|, i requires 0 <= i < |ids| => Assignment(ids[i], roomId))
  }

  /** Every participant of a conference leaving the room it is in. */
  function LeftRooms(mappings: map<Participant, string>, conferenceId: string): (changes: map<Participant, RoomChange>)
    ensures forall p :: p in changes <==> p in mappings && p.conferenceId == conferenceId
    ensures forall p :: p in changes ==> changes[p] == Left(mappings[p])
  {
    map p | p in mappings && p.conferenceId == conferenceId :: Left(mappings[p])
  }

  /** The ids of the rooms to create, in order. */
  function RoomIds(creations: seq<RoomCreation>): (ids: seq<string>)
    ensures |ids| == |creations|
    ensures forall i :: 0 <= i < |creations| ==> ids[i] == creations[i].roomId
  {
    seq(|creations|, i requires 0 <= i < |creations| => creations[i].roomId)
  }

  /** The rooms after creating the given ones in a conference, one after the other. */
  function WithRooms(rooms: map<RoomKey, string>, conferenceId: string, creations: seq<RoomCreation>): map<RoomKey, string>
    decreases |creations|
  {
    if creations == [] then rooms
    else
      var last := creations[|creations| - 1];
      WithRooms(rooms, conferenceId, creations[..|creations| - 1])[RoomKey(conferenceId, last.roomId) := last.displayName]
  }

  /** The ids of the creations are those of all but the last creation and the last one's. */
  lemma RoomIdsOneMore(creations: seq<RoomCreation>)
    requires creations != []
    ensures forall id :: id in RoomIds(creations)
                         <==> id in RoomIds(creations[..|creations| - 1]) || id == creations[|creations| - 1].roomId
  {
    var init := creations[..|creations| - 1];
    forall id
      ensures id in RoomIds(creations) <==> id in RoomIds(init) || id == creations[|creations| - 1].roomId
    {
      if id in RoomIds(creations) {
        var i :| 0 <= i < |creations| && RoomIds(creations)[i] == id;
        if i < |init| {
          assert RoomIds(init)[i] == id;
        }
      }
      if id in RoomIds(init) {
        var i :| 0 <= i < |init| && RoomIds(init)[i] == id;
        assert RoomIds(creations)[i] == id;
      }
      if id == creations[|creations| - 1].roomId {
        assert RoomIds(creations)[|creations| - 1] == id;
      }
    }
  }

  /** Creating rooms adds exactly the created rooms, each under the display name of its last
      creation, and leaves every other room as it was. */
  lemma {:induction false} WithRoomsAddsTheCreated(rooms: map<RoomKey, string>, conferenceId: string,
                                                   creations: seq<RoomCreation>)
    ensures forall k :: k in WithRooms(rooms, conferenceId, creations) <==>
      k in rooms || (k.conferenceId == conferenceId && k.roomId in RoomIds(creations))
    ensures forall k: RoomKey ::
              (k.conferenceId != conferenceId || k.roomId !in RoomIds(creations))
              ==> Get(WithRooms(rooms, conferenceId, creations), k) == Get(rooms, k)
    ensures forall i ::
              (0 <= i < |creations| && (forall j :: i < j < |creations| ==> creations[j].roomId != creations[i].roomId))
              ==> && RoomKey(conferenceId, creations[i].roomId) in WithRooms(rooms, conferenceId, creations)
                  && WithRooms(rooms, conferenceId, creations)[RoomKey(conferenceId, creations[i].roomId)]
                     == creations[i].displayName
    decreases |creations|
  {
    if creations != [] {
      var init := creations[..|creations| - 1];
      WithRoomsAddsTheCreated(rooms, conferenceId, init);
      RoomIdsOneMore(creations);
      forall i | 0 <= i < |creations| - 1 && (forall j :: i < j < |creations| ==> creations[j].roomId != creations[i].roomId)
        ensures && RoomKey(conferenceId, creations[i].roomId) in WithRooms(rooms, conferenceId, creations)
                && WithRooms(rooms, conferenceId, creations)[RoomKey(conferenceId, creations[i].roomId)]
                   == creations[i].displayName
      {
        assert init[i] == creations[i];
        forall j | i < j < |init|
          ensures init[j].roomId != init[i].roomId
        {
          assert init[j] == creations[j];
        }
      }
    }
  }

  /** Creating rooms under distinct fresh ids keeps every existing room with its display name
      and gives every new room the display name of its creation. */
  lemma NewRoomsKeepTheOld(rooms: map<RoomKey, string>, conferenceId: string, creations: seq<RoomCreation>)
    requires Distinct(RoomIds(creations))
    requires forall i :: 0 <= i < |creations| ==> RoomKey(conferenceId, creations[i].roomId) !in rooms
    ensures forall k :: k in WithRooms(rooms, conferenceId, creations) <==>
      k in rooms || (k.conferenceId == conferenceId && k.roomId in RoomIds(creations))
    ensures forall k :: k in rooms ==> WithRooms(rooms, conferenceId, creations)[k] == rooms[k]
    ensures forall i :: 0 <= i < |creations| ==>
      WithRooms(rooms, conferenceId, creations)[RoomKey(conferenceId, creations[i].roomId)] == creations[i].displayName
  {
    WithRoomsAddsTheCreated(rooms, conferenceId, creations);
    forall k | k in rooms
      ensures WithRooms(rooms, conferenceId, creations)[k] == rooms[k]
    {
      assert k.conferenceId != conferenceId || k.roomId !in RoomIds(creations);
      assert Get(WithRooms(rooms, conferenceId, creations), k) == Get(rooms, k);
    }
    forall i | 0 <= i < |creations|
      ensures WithRooms(rooms, conferenceId, creations)[RoomKey(conferenceId, creations[i].roomId)] == creations[i].displayName
    {
      forall j | i < j < |creations|
        ensures creations[j].roomId != creations[i].roomId
      {
        assert RoomIds(creations)[i] != RoomIds(creations)[j];
      }
    }
  }

  /** Moving distinct participants, none of them in a room yet, into one existing room:
      exactly they move, each tagged as joining that room, and everybody else stays. */
  lemma {:induction false} EveryoneToOneRoom(rooms: set<RoomKey>, mappings: map<Participant, string>,
                                             conferenceId: string, ids: seq<string>, roomId: string)
    requires RoomKey(conferenceId, roomId) in rooms
    requires Distinct(ids)
    requires forall id :: id in ids ==> Participant(conferenceId, id) !in mappings
    ensures var out := Batch(rooms, mappings, conferenceId, ToRoom(ids, roomId), {});
      && (forall p :: p in out.changes <==> p.conferenceId == conferenceId && p.id in ids)
      && (forall p :: p in out.changes ==> out.changes[p] == Joined(roomId))
      && (forall p :: Get(out.mappings, p) == if p.conferenceId == conferenceId && p.id in ids then Some(roomId)
                                             else Get(mappings, p))
    decreases |ids|
  {
    if ids != [] {
      var init := ids[..|ids| - 1];
      var last := ids[|ids| - 1];
      assert ToRoom(ids, roomId)[..|ids| - 1] == ToRoom(init, roomId);
      assert Distinct(init);
      EveryoneToOneRoom(rooms, mappings, conferenceId, init, roomId);
      assert last !in init;
      var before := Batch(rooms, mappings, conferenceId, ToRoom(init, roomId), {});
      var p := Participant(conferenceId, last);
      assert Get(before.mappings, p) == None;
      forall id
        ensures id in ids <==> id in init || id == last
      {
        if id in ids && id != last {
          var i :| 0 <= i < |ids| && ids[i] == id;
          assert init[i] == id;
        }
      }
      OneMoreJoins(before, Batch(rooms, mappings, conferenceId, ToRoom(ids, roomId), {}), mappings, conferenceId,
                   init, ids, last, roomId);
    }
  }

  /** One more participant joining the room keeps the outcome of the batch so far: exactly
      the participants moved so far and the new one are tagged as joining. */
  lemma OneMoreJoins(before: BatchOutcome, after: BatchOutcome, mappings: map<Participant, string>,
                     conferenceId: string, moved: seq<string>, ids: seq<string>, last: string, roomId: string)
    requires forall id :: id in ids <==> id in moved || id == last
    requires after == BatchOutcome(before.mappings[Participant(conferenceId, last) := roomId],
                                   before.changes[Participant(conferenceId, last) := Joined(roomId)])
    requires forall p :: p in before.changes <==> p.conferenceId == conferenceId && p.id in moved
    requires forall p :: p in before.changes ==> before.changes[p] == Joined(roomId)
    requires forall p :: Get(before.mappings, p) == if p.conferenceId == conferenceId && p.id in moved then Some(roomId)
                                                    else Get(mappings, p)
    ensures forall q :: q in after.changes <==> q.conferenceId == conferenceId && q.id in ids
    ensures forall q :: q in after.changes ==> after.changes[q] == Joined(roomId)
    ensures forall q :: Get(after.mappings, q) == if q.conferenceId == conferenceId && q.id in ids then Some(roomId)
                                                  else Get(mappings, q)
  {
  }

  /** The tags of participants joining one room. */
  function JoinedInto(conferenceId: string, ids: set<string>, roomId: string): (changes: map<Participant, RoomChange>)
    ensures forall p :: p in changes <==> p.conferenceId == conferenceId && p.id in ids
    ensures forall p :: p in changes ==> changes[p] == Joined(roomId)
  {
    var participants := set id | id in ids :: Participant(conferenceId, id);
    map p | p in participants :: Joined(roomId)
  }

  /** The announcement that the joined participants of a conference entered its default
      room, or nothing when nobody is joined. */
  function JoinedAnnouncement(conferenceId: string, ids: set<string>): seq<Message>
  {
    if ids == {} then [] else [ParticipantsRoomChanged(conferenceId, JoinedInto(conferenceId, ids, DefaultRoomId))]
  }

  /** The conferences of the service and the repositories their handlers share. */
  class ConferenceService {
    /** the ids of the open conferences */
    var open: set<string>
    const participants: JoinedParticipantsRepository
    const rooms: RoomRepository
    const mediator: Mediator

    /** Rooms and room mappings exist only for open conferences, and every open conference
        has its default room. */
    ghost predicate Valid()
      reads this, rooms
    {
      && rooms.Valid()
      && (forall k :: k in rooms.rooms ==> k.conferenceId in open)
      && (forall p :: p in rooms.mappings ==> p.conferenceId in open)
      && (forall c :: c in open ==> RoomKey(c, DefaultRoomId) in rooms.rooms)
    }

    constructor ()
      ensures Valid()
      ensures open == {} && participants.sessions == map[] && participants.held == []
      ensures rooms.rooms == map[] && rooms.mappings == map[] && mediator.log == []
    {
      open := {};
      participants := new JoinedParticipantsRepository();
      rooms := new RoomRepository();
      mediator := new Mediator();
    }

    /** Opens a conference. An open conference is left alone and nothing is published;
        otherwise the opening is announced, the default room created and announced, and every
        participant already joined moved into it. */
    method OpenConference(conferenceId: string)
      requires Valid()
      modifies this, rooms, mediator
      ensures Valid()
      ensures open == old(open) + {conferenceId}
      ensures conferenceId in old(open) ==>
        && mediator.log == old(mediator.log)
        && rooms.rooms == old(rooms.rooms) && rooms.mappings == old(rooms.mappings)
      ensures conferenceId !in old(open) ==>
        && rooms.rooms == old(rooms.rooms)[RoomKey(conferenceId, DefaultRoomId) := DefaultRoomName]
        && (forall p :: Get(rooms.mappings, p)
              == if p.conferenceId == conferenceId && p.id in JoinedIds(participants.sessions, conferenceId)
                 then Some(DefaultRoomId) else Get(old(rooms.mappings), p))
        && mediator.log == old(mediator.log) + [ConferenceOpened(conferenceId), RoomsCreated(conferenceId, [DefaultRoomId])]
           + JoinedAnnouncement(conferenceId, JoinedIds(participants.sessions, conferenceId))
    {
      if conferenceId in open {
        return;
      }
      open := open + {conferenceId};
      mediator.Publish(ConferenceOpened(conferenceId));
      rooms.CreateRoom(conferenceId, DefaultRoomId, DefaultRoomName);
      mediator.Publish(RoomsCreated(conferenceId, [DefaultRoomId]));
      MoveJoinedIntoDefaultRoom(conferenceId);
    }

    /** Moves every participant joined to a conference that was just opened into its default room. */
    method MoveJoinedIntoDefaultRoom(conferenceId: string)
      requires Valid() && conferenceId in open
      requires forall p :: p in rooms.mappings ==> p.conferenceId != conferenceId
      modifies rooms, mediator
      ensures Valid()
      ensures rooms.rooms == old(rooms.rooms)
      ensures forall p :: Get(rooms.mappings, p)
                == if p.conferenceId == conferenceId && p.id in JoinedIds(participants.sessions, conferenceId)
                   then Some(DefaultRoomId) else Get(old(rooms.mappings), p)
      ensures mediator.log == old(mediator.log) + JoinedAnnouncement(conferenceId, JoinedIds(participants.sessions, conferenceId))
    {
      var joined := JoinedIds(participants.sessions, conferenceId);
      var ids := Enumerate(joined);
      EveryoneToOneRoom(rooms.rooms.Keys, rooms.mappings, conferenceId, ids, DefaultRoomId);
      ghost var out := Batch(rooms.rooms.Keys, rooms.mappings, conferenceId, ToRoom(ids, DefaultRoomId), {});
      assert out.changes == JoinedInto(conferenceId, joined, DefaultRoomId);
      if ids != [] {
        assert Participant(conferenceId, ids[0]) in out.changes;
      }
      SetParticipantRooms(rooms, mediator, conferenceId, ToRoom(ids, DefaultRoomId), {});
    }

    /** Closes a conference. A conference that is not open is left alone and nothing is
        published; otherwise the closing is announced, then every room and room mapping of the
        conference is deleted, the removed rooms announced, and every participant that lost its
        room announced as leaving it. */
    method CloseConference(conferenceId: string)
      requires Valid()
      modifies this, rooms, mediator
      ensures Valid()
      ensures open == old(open) - {conferenceId}
      ensures conferenceId !in old(open) ==>
        && mediator.log == old(mediator.log)
        && rooms.rooms == old(rooms.rooms) && rooms.mappings == old(rooms.mappings)
      ensures conferenceId in old(open) ==>
        && rooms.rooms == RoomsOutside(old(rooms.rooms), conferenceId)
        && rooms.mappings == MappingsOutside(old(rooms.mappings), conferenceId)
        && |mediator.log| == |old(mediator.log)| + 3
        && mediator.log[..|old(mediator.log)| + 1] == old(mediator.log) + [ConferenceClosed(conferenceId)]
        && (var removed := mediator.log[|old(mediator.log)| + 1];
            && removed.RoomsRemoved? && removed.removedFrom == conferenceId && Distinct(removed.removedRooms)
            && forall roomId :: roomId in removed.removedRooms <==> RoomKey(conferenceId, roomId) in old(rooms.rooms))
        && mediator.log[|old(mediator.log)| + 2]
           == ParticipantsRoomChanged(conferenceId, LeftRooms(old(rooms.mappings), conferenceId))
    {
      if conferenceId !in open {
        return;
      }
      open := open - {conferenceId};
      mediator.Publish(ConferenceClosed(conferenceId));
      var left := LeftRooms(rooms.mappings, conferenceId);
      var deletedRooms, _ := rooms.DeleteAllRoomsAndMappingsOfConference(conferenceId);
      mediator.Publish(RoomsRemoved(conferenceId, deletedRooms));
      mediator.Publish(ParticipantsRoomChanged(conferenceId, left));
    }

    /** Joins a participant (see the join handler); in an open conference the participant is
        then moved to the default room, in a closed one it gets no room. */
    method Join(participant: Participant, connectionId: string, meta: string)
      requires Valid()
      modifies participants, rooms, mediator
      ensures Valid()
      ensures participants.sessions == old(participants.sessions)[participant.id := Session(participant.conferenceId, connectionId)]
      ensures participants.held == old(participants.held)
      ensures rooms.rooms == old(rooms.rooms)
      ensures participant.conferenceId !in open ==>
        && rooms.mappings == old(rooms.mappings)
        && mediator.log == old(mediator.log)
           + JoinTrace(participant, connectionId, meta, Get(old(participants.sessions), participant.id), true)
      ensures participant.conferenceId in open ==>
        && rooms.mappings == old(rooms.mappings)[participant := DefaultRoomId]
        && mediator.log == old(mediator.log)
           + JoinTrace(participant, connectionId, meta, Get(old(participants.sessions), participant.id), true)
           + [ParticipantsRoomChanged(participant.conferenceId,
                                      map[participant := ChangeOf(Get(old(rooms.mappings), participant), DefaultRoomId)])]
    {
      var r := HandleJoin(participants, mediator, participant, connectionId, meta, None);
      if participant.conferenceId in open {
        MoveParticipant(participant, DefaultRoomId);
      }
    }

    /** A participant left: it is taken out of its room, and announced as leaving that room
        when it was in one. */
    method OnParticipantLeft(participant: Participant)
      requires Valid()
      modifies rooms, mediator
      ensures Valid()
      ensures rooms.rooms == old(rooms.rooms)
      ensures rooms.mappings == old(rooms.mappings) - {participant}
      ensures participant !in old(rooms.mappings) ==> mediator.log == old(mediator.log)
      ensures participant in old(rooms.mappings) ==>
        mediator.log == old(mediator.log)
          + [ParticipantsRoomChanged(participant.conferenceId, map[participant := Left(old(rooms.mappings)[participant])])]
    {
      var previous := rooms.UnsetParticipantRoom(participant);
      if previous.Some? {
        mediator.Publish(ParticipantsRoomChanged(participant.conferenceId, map[participant := Left(previous.value)]));
      }
    }

    /** Creates rooms in a conference and returns their ids. A conference that is not open
        rejects the request with a concurrency failure, storing and publishing nothing. The
        ids are the ones the server generates, so they are distinct and name no existing room;
        an open conference then keeps every room it had and gains exactly the new ones. */
    method CreateRooms(conferenceId: string, creations: seq<RoomCreation>) returns (r: Result<seq<string>, ServiceError>)
      requires Valid()
      requires Distinct(RoomIds(creations))
      requires forall i :: 0 <= i < |creations| ==> RoomKey(conferenceId, creations[i].roomId) !in rooms.rooms
      modifies rooms, mediator
      ensures Valid()
      ensures rooms.mappings == old(rooms.mappings)
      ensures r.Err? <==> conferenceId !in open
      ensures r.Err? ==> r.error == ConcurrencyFailure && rooms.rooms == old(rooms.rooms) && mediator.log == old(mediator.log)
      ensures r.Ok? ==>
        && r.value == RoomIds(creations)
        && rooms.rooms == WithRooms(old(rooms.rooms), conferenceId, creations)
        && mediator.log == old(mediator.log) + [RoomsCreated(conferenceId, RoomIds(creations))]
      ensures r.Ok? ==>
        && (forall k :: k in rooms.rooms <==> k in old(rooms.rooms) || (k.conferenceId == conferenceId && k.roomId in r.value))
        && (forall k :: k in old(rooms.rooms) ==> rooms.rooms[k] == old(rooms.rooms)[k])
        && (forall i :: 0 <= i < |creations| ==> rooms.rooms[RoomKey(conferenceId, creations[i].roomId)] == creations[i].displayName)
    {
      if conferenceId !in open {
        return Err(ConcurrencyFailure);
      }
      var i := 0;
      while i < |creations|
        invariant 0 <= i <= |creations|
        invariant Valid()
        invariant rooms.mappings == old(rooms.mappings)
        invariant rooms.rooms == WithRooms(old(rooms.rooms), conferenceId, creations[..i])
        invariant mediator.log == old(mediator.log)
      {
        rooms.CreateRoom(conferenceId, creations[i].roomId, creations[i].displayName);
        assert creations[..i + 1][..i] == creations[..i];
        i := i + 1;
      }
      assert creations[..i] == creations;
      NewRoomsKeepTheOld(old(rooms.rooms), conferenceId, creations);
      mediator.Publish(RoomsCreated(conferenceId, RoomIds(creations)));
      r := Ok(RoomIds(creations));
    }

    /** Moves one participant to a room: when the room exists the participant is mapped to it
        and the move announced with its tag; otherwise nothing changes and nothing is published. */
    method MoveParticipant(participant: Participant, roomId: string)
      requires Valid()
      modifies rooms, mediator
      ensures Valid()
      ensures rooms.rooms == old(rooms.rooms)
      ensures RoomKey(participant.conferenceId, roomId) !in old(rooms.rooms) ==>
        rooms.mappings == old(rooms.mappings) && mediator.log == old(mediator.log)
      ensures RoomKey(participant.conferenceId, roomId) in old(rooms.rooms) ==>
        && rooms.mappings == old(rooms.mappings)[participant := roomId]
        && mediator.log == old(mediator.log)
           + [ParticipantsRoomChanged(participant.conferenceId,
                                      map[participant := ChangeOf(Get(old(rooms.mappings), participant), roomId)])]
    {
      ghost var mappingsBefore := rooms.mappings;
      ghost var logBefore := mediator.log;
      var assignments := [Assignment(participant.id, roomId)];
      assert assignments[..0] == [];
      SetParticipantRooms(rooms, mediator, participant.conferenceId, assignments, {});
      if RoomKey(participant.conferenceId, roomId) in rooms.rooms {
        ghost var out := Batch(rooms.rooms.Keys, mappingsBefore, participant.conferenceId, assignments, {});
        assert out == BatchOutcome(mappingsBefore[participant := roomId],
                                   map[participant := ChangeOf(Get(mappingsBefore, participant), roomId)]);
        assert participant in out.changes;
        assert mediator.log == logBefore
          + [ParticipantsRoomChanged(participant.conferenceId,
                                     map[participant := ChangeOf(Get(mappingsBefore, participant), roomId)])];
      }
    }

    /** A moderator kicks a participant: its removal is announced for every connection. */
    method KickParticipant(participant: Participant)
      modifies mediator
      ensures mediator.log == old(mediator.log) + [ParticipantKicked(participant, None, ByModerator)]
    {
      mediator.Publish(ParticipantKicked(participant, None, ByModerator));
    }

    /** Whether the conference is open, as its synchronised conference information shows it. */
    method IsOpen(conferenceId: string) returns (isOpen: bool)
      ensures isOpen <==> conferenceId in open
    {
      isOpen := conferenceId in open;
    }
  }
}
