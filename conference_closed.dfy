/** What the room system does when a conference closes: it removes every room and every
    participant mapping of the conference in one repository call, then announces the removed
    rooms and the participants that lost their room, in that order. */
module ConferenceClosed {
  import opened Common
  import opened Rooms

  /** The participants of a conference, from their ids. */
  function ParticipantsOf(conferenceId: string, ids: seq<string>): (ps: seq<Participant>)
    ensures |ps| == |ids|
    ensures forall i :: 0 <= i < |ids| ==> ps[i] == Participant(conferenceId, ids[i])
  {
    seq(|ids|, i requires 0 <= i < |ids| => Participant(conferenceId, ids[i]))
  }

  /** Handles the closing of a conference. */
  method HandleConferenceClosed(repo: RoomRepository, mediator: Mediator, conferenceId: string)
    requires repo.Valid()
    modifies repo, mediator
    ensures repo.Valid()
    // nothing of the closed conference remains, so no later assignment to it can succeed
    ensures forall roomId :: RoomKey(conferenceId, roomId) !in repo.rooms
    ensures forall p :: p in repo.mappings ==> p.conferenceId != conferenceId
    // other conferences keep their rooms and mappings
    ensures forall k: RoomKey :: k.conferenceId != conferenceId ==> Get(repo.rooms, k) == Get(old(repo.rooms), k)
    ensures forall p: Participant :: p.conferenceId != conferenceId ==> Get(repo.mappings, p) == Get(old(repo.mappings), p)
    // exactly two notifications, rooms first
    ensures |mediator.log| == |old(mediator.log)| + 2
    ensures mediator.log[..|old(mediator.log)|] == old(mediator.log)
    ensures var removed := mediator.log[|old(mediator.log)|];
      removed.RoomsRemoved? && removed.removedFrom == conferenceId && Distinct(removed.removedRooms)
      && forall roomId :: roomId in removed.removedRooms <==> RoomKey(conferenceId, roomId) in old(repo.rooms)
    ensures var changed := mediator.log[|old(mediator.log)| + 1];
      changed.ParticipantsRoomChangedList? && changed.listedIn == conferenceId && Distinct(changed.listed)
      && forall p :: p in changed.listed <==> p in old(repo.mappings) && p.conferenceId == conferenceId
  {
    var deletedRooms, deletedParticipants := repo.DeleteAllRoomsAndMappingsOfConference(conferenceId);
    mediator.Publish(RoomsRemoved(conferenceId, deletedRooms));
    var listed := ParticipantsOf(conferenceId, deletedParticipants);
    forall p | p in listed
      ensures p in old(repo.mappings) && p.conferenceId == conferenceId
    {
      var i :| 0 <= i < |listed| && listed[i] == p;
      assert deletedParticipants[i] in deletedParticipants;
    }
    forall p | p in old(repo.mappings) && p.conferenceId == conferenceId
      ensures p in listed
    {
      assert p.id in deletedParticipants;
      var i :| 0 <= i < |deletedParticipants| && deletedParticipants[i] == p.id;
      assert listed[i] == p;
    }
    assert Distinct(listed) by {
      forall i, j | 0 <= i < j < |listed|
        ensures listed[i] != listed[j]
      {
        assert deletedParticipants[i] != deletedParticipants[j];
      }
    }
    mediator.Publish(ParticipantsRoomChangedList(conferenceId, listed));
  }
}
