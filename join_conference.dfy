/** Joining a participant to a conference: the new connection replaces any previous session
    of the same participant id (whose connection is kicked), the join is re-checked under the
    participant's join lock, and only then is the participant initialised, enabled for
    messaging and announced as joined, in that order. */
module JoinConference {
  import opened Common

  /** Where a participant id is currently joined: its conference and its connection. */
  datatype Session = Session(conferenceId: string, connectionId: string)

  /** The joined-participants store: one session per participant id, and the join locks held. */
  class JoinedParticipantsRepository {
    var sessions: map<string, Session>
    /** the join locks held, innermost last */
    var held: seq<Participant>

    constructor ()
      ensures sessions == map[] && held == []
    {
      sessions := map[];
      held := [];
    }

    /** Records the connection as the participant's session and returns the session it replaced. */
    method AddParticipant(participant: Participant, connectionId: string) returns (previous: Option<Session>)
      modifies this
      ensures previous == Get(old(sessions), participant.id)
      ensures sessions == old(sessions)[participant.id := Session(participant.conferenceId, connectionId)]
      ensures held == old(held)
    {
      previous := Get(sessions, participant.id);
      sessions := sessions[participant.id := Session(participant.conferenceId, connectionId)];
    }

    /** Whether the connection is the participant's current session: the session stored for
        the id is in the participant's conference and on this connection. */
    method IsParticipantJoined(participant: Participant, connectionId: string) returns (joined: bool)
      ensures joined <==> Get(sessions, participant.id) == Some(Session(participant.conferenceId, connectionId))
    {
      joined := participant.id in sessions && sessions[participant.id] == Session(participant.conferenceId, connectionId);
    }

    method LockParticipantJoin(participant: Participant)
      modifies this
      ensures held == old(held) + [participant]
      ensures sessions == old(sessions)
    {
      held := held + [participant];
    }

    method UnlockParticipantJoin(participant: Participant)
      requires held != [] && held[|held| - 1] == participant
      modifies this
      ensures held == old(held)[..|old(held)| - 1]
      ensures sessions == old(sessions)
    {
      held := held[..|held| - 1];
    }
  }

  function KickOf(participantId: string, previous: Session): Message
  {
    ParticipantKicked(Participant(previous.conferenceId, participantId), Some(previous.connectionId), NewSessionConnected)
  }

  /** The kick of the replaced session, if there was one. */
  function KickPart(participantId: string, previous: Option<Session>): seq<Message>
  {
    if previous.Some? then [KickOf(participantId, previous.value)] else []
  }

  /** The steps of a join that is still current. */
  function Announced(participant: Participant, connectionId: string, meta: string): seq<Message>
  {
    [ParticipantInitialized(participant), EnableParticipantMessaging(participant, connectionId),
     ParticipantJoined(participant, meta)]
  }

  /** What a join sends and publishes, given the session it replaced and whether the join
      was still current under the lock. */
  function JoinTrace(participant: Participant, connectionId: string, meta: string,
                     previous: Option<Session>, stillJoined: bool): seq<Message>
  {
    KickPart(participant.id, previous) + (if stillJoined then Announced(participant, connectionId, meta) else [])
  }

  predicate IsKick(m: Message) { m.ParticipantKicked? }
  predicate IsInitialized(m: Message) { m.ParticipantInitialized? }
  predicate IsEnableMessaging(m: Message) { m.EnableParticipantMessaging? }
  predicate IsJoined(m: Message) { m.ParticipantJoined? }

  /** Exactly one kick when a previous session existed and none otherwise; the kick names the
      previous session's conference with the same participant id, the previous connection and
      the new-session reason, and it comes first. */
  lemma JoinKicksPreviousSessionOnce(participant: Participant, connectionId: string, meta: string,
                                     previous: Option<Session>, stillJoined: bool)
    ensures var t := JoinTrace(participant, connectionId, meta, previous, stillJoined);
      Count(t, IsKick) == (if previous.Some? then 1 else 0)
      && (previous.Some? ==> t[0] == ParticipantKicked(Participant(previous.value.conferenceId, participant.id),
                                                        Some(previous.value.connectionId), NewSessionConnected))
  {
    CountTrace(participant, connectionId, meta, previous, stillJoined, IsKick);
  }

  /** A join that is no longer current under the lock initialises, enables and announces
      nothing; a current one does each exactly once. */
  lemma JoinAnnouncesOnce(participant: Participant, connectionId: string, meta: string,
                          previous: Option<Session>, stillJoined: bool)
    ensures var t := JoinTrace(participant, connectionId, meta, previous, stillJoined);
      && Count(t, IsInitialized) == (if stillJoined then 1 else 0)
      && Count(t, IsEnableMessaging) == (if stillJoined then 1 else 0)
      && Count(t, IsJoined) == (if stillJoined then 1 else 0)
  {
    CountTrace(participant, connectionId, meta, previous, stillJoined, IsInitialized);
    CountTrace(participant, connectionId, meta, previous, stillJoined, IsEnableMessaging);
    CountTrace(participant, connectionId, meta, previous, stillJoined, IsJoined);
  }

  /** How many messages of a join's trace satisfy a predicate, message by message. */
  lemma {:induction false} CountTrace(participant: Participant, connectionId: string, meta: string,
                                      previous: Option<Session>, stillJoined: bool, p: Message -> bool)
    ensures Count(JoinTrace(participant, connectionId, meta, previous, stillJoined), p)
      == (if previous.Some? && p(KickOf(participant.id, previous.value)) then 1 else 0)
         + (if stillJoined
            then (if p(ParticipantInitialized(participant)) then 1 else 0)
                 + (if p(EnableParticipantMessaging(participant, connectionId)) then 1 else 0)
                 + (if p(ParticipantJoined(participant, meta)) then 1 else 0)
            else 0)
  {
    var kick := KickPart(participant.id, previous);
    var rest := if stillJoined then Announced(participant, connectionId, meta) else [];
    if previous.Some? {
      CountOne(kick[0], p);
    }
    CountAppend(kick, rest, p);
    if stillJoined {
      var m0, m1, m2 := ParticipantInitialized(participant), EnableParticipantMessaging(participant, connectionId),
                        ParticipantJoined(participant, meta);
      assert rest == [m0] + [m1] + [m2];
      CountOne(m0, p);
      CountOne(m1, p);
      CountOne(m2, p);
      CountAppend([m0], [m1], p);
      CountAppend([m0] + [m1], [m2], p);
    }
  }

  /** A current join initialises the participant, then enables messaging for the joining
      connection, then announces the participant, one right after the other. */
  lemma JoinAnnouncesInOrder(participant: Participant, connectionId: string, meta: string, previous: Option<Session>)
    ensures var t := JoinTrace(participant, connectionId, meta, previous, true);
      exists i :: 0 <= i && i + 2 < |t|
        && t[i] == ParticipantInitialized(participant)
        && t[i + 1] == EnableParticipantMessaging(participant, connectionId)
        && t[i + 2] == ParticipantJoined(participant, meta)
  {
    var t := JoinTrace(participant, connectionId, meta, previous, true);
    var k := |KickPart(participant.id, previous)|;
    assert t[k] == ParticipantInitialized(participant);
    assert t[k + 1] == EnableParticipantMessaging(participant, connectionId);
    assert t[k + 2] == ParticipantJoined(participant, meta);
  }


  /** Handles a join request. A concurrent join of the same participant that lands between
      registering this connection and taking the lock is given as `interleaved`: the session
      it writes; the model is otherwise sequential. */
  method HandleJoin(repo: JoinedParticipantsRepository, mediator: Mediator, participant: Participant,
                    connectionId: string, meta: string, interleaved: Option<Session>)
    returns (r: Result<(), ServiceError>)
    modifies repo, mediator
    ensures r.Ok? <==> interleaved.None? || interleaved.value == Session(participant.conferenceId, connectionId)
    ensures r.Err? ==> r.error == ConcurrencyFailure
    // the lock is released on every exit
    ensures repo.held == old(repo.held)
    ensures repo.sessions == old(repo.sessions)[participant.id :=
      if interleaved.Some? then interleaved.value else Session(participant.conferenceId, connectionId)]
    ensures mediator.log == old(mediator.log)
      + JoinTrace(participant, connectionId, meta, Get(old(repo.sessions), participant.id), r.Ok?)
  {
    var previous := repo.AddParticipant(participant, connectionId);
    if previous.Some? {
      mediator.Publish(KickOf(participant.id, previous.value));
    }
    assert mediator.log == old(mediator.log) + KickPart(participant.id, previous);
    ghost var current := if interleaved.Some? then interleaved.value else Session(participant.conferenceId, connectionId);
    if interleaved.Some? {
      repo.sessions := repo.sessions[participant.id := interleaved.value];
    }
    assert repo.sessions == old(repo.sessions)[participant.id := current];
    repo.LockParticipantJoin(participant);
    var stillJoined := repo.IsParticipantJoined(participant, connectionId);
    if stillJoined {
      Announce(mediator, participant, connectionId, meta);
      r := Ok(());
    } else {
      r := Err(ConcurrencyFailure);
      assert mediator.log == old(mediator.log) + KickPart(participant.id, previous) + [];
    }
    repo.UnlockParticipantJoin(participant);
    assert repo.held == old(repo.held);
  }

  /** The three steps of a join that is still current, in their required order. */
  method Announce(mediator: Mediator, participant: Participant, connectionId: string, meta: string)
    modifies mediator
    ensures mediator.log == old(mediator.log) + Announced(participant, connectionId, meta)
  {
    mediator.Publish(ParticipantInitialized(participant));
    mediator.Send(EnableParticipantMessaging(participant, connectionId));
    mediator.Publish(ParticipantJoined(participant, meta));
  }
}
