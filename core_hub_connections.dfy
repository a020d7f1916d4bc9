/** The hub's registry of live connections: at most one connection per participant id. */
module CoreHub {
  import opened Common

  /** The conference and the connection a participant id is connected with. */
  datatype ParticipantConnection = ParticipantConnection(conferenceId: string, connectionId: string)

  class CoreHubConnections {
    var connections: map<string, ParticipantConnection>

    constructor ()
      ensures connections == map[]
    {
      connections := map[];
    }

    /** Stores the connection for the id, replacing any previous one. */
    method SetParticipant(participantId: string, connection: ParticipantConnection)
      modifies this
      ensures connections == old(connections)[participantId := connection]
      ensures forall id :: id != participantId ==> Get(connections, id) == Get(old(connections), id)
    {
      connections := connections[participantId := connection];
    }

    /** Removes the id whatever connection it has; an absent id is left alone. */
    method RemoveParticipant(participantId: string)
      modifies this
      ensures connections == old(connections) - {participantId}
      ensures forall id :: id != participantId ==> Get(connections, id) == Get(old(connections), id)
    {
      connections := connections - {participantId};
    }

    /** Removes the id only while it still has the given connection, so a stale disconnect
        cannot remove a newer connection of the same participant; reports whether it did. */
    method TryRemoveParticipant(participantId: string, connection: ParticipantConnection) returns (removed: bool)
      modifies this
      ensures removed <==> Get(old(connections), participantId) == Some(connection)
      ensures connections == if removed then old(connections) - {participantId} else old(connections)
      ensures forall id :: id != participantId ==> Get(connections, id) == Get(old(connections), id)
    {
      removed := participantId in connections && connections[participantId] == connection;
      if removed {
        connections := connections - {participantId};
      }
    }

    /** Looks the id up. */
    method TryGetParticipant(participantId: string) returns (found: bool, connection: Option<ParticipantConnection>)
      ensures found <==> participantId in connections
      ensures found ==> connection == Some(connections[participantId])
      ensures !found ==> connection == None
    {
      found := participantId in connections;
      connection := if found then Some(connections[participantId]) else None;
    }
  }

  /** A disconnect that arrives after the participant reconnected does not drop the new
      connection: the newer connection survives a stale compare-and-remove. */
  method StaleDisconnectKeepsNewConnection(registry: CoreHubConnections, participantId: string,
                                           stale: ParticipantConnection, current: ParticipantConnection)
    requires stale != current
    modifies registry
    ensures Get(registry.connections, participantId) == Some(current)
  {
    registry.SetParticipant(participantId, stale);
    registry.SetParticipant(participantId, current);
    var removed := registry.TryRemoveParticipant(participantId, stale);
    assert !removed;
  }
}
