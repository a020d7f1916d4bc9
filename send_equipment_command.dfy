/** Forwarding a command to a participant's equipment: only a connected, initialised
    equipment connection receives commands. */
module EquipmentCommands {
  import opened Common

  /** What the equipment connection registered; its details play no part here. */
  datatype EquipmentConnection = EquipmentConnection(connectionId: string)

  /** The equipment connections of each participant, by connection id. */
  class EquipmentConnectionRepository {
    var connections: map<(Participant, string), EquipmentConnection>

    constructor ()
      ensures connections == map[]
    {
      connections := map[];
    }

    method GetConnection(participant: Participant, connectionId: string) returns (c: Option<EquipmentConnection>)
      ensures c == Get(connections, (participant, connectionId))
    {
      c := Get(connections, (participant, connectionId));
    }
  }

  /** What the use case publishes: the command with all its fields copied from the request,
      or nothing and the not-initialised error when the connection is unknown. */
  function CommandOutcome(known: bool, participant: Participant, connectionId: string, source: string,
                          deviceId: string, action: string): (r: (Result<(), ServiceError>, seq<Message>))
    ensures r.0.Ok? <==> known
    ensures r.0.Err? ==> r.0.error == EquipmentNotInitialized && r.1 == []
    ensures r.0.Ok? ==>
      && |r.1| == 1 && r.1[0].SendEquipmentCommand?
      && r.1[0].commanded == participant && r.1[0].equipmentConnectionId == connectionId
      && r.1[0].source == source && r.1[0].deviceId == deviceId && r.1[0].action == action
  {
    if known then (Ok(()), [SendEquipmentCommand(participant, connectionId, source, deviceId, action)])
    else (Err(EquipmentNotInitialized), [])
  }

  /** Handles a send-equipment-command request. */
  method HandleSendEquipmentCommand(repo: EquipmentConnectionRepository, mediator: Mediator,
                                    participant: Participant, connectionId: string, source: string,
                                    deviceId: string, action: string)
    returns (r: Result<(), ServiceError>)
    modifies mediator
    ensures var (expected, published) :=
      CommandOutcome((participant, connectionId) in repo.connections, participant, connectionId, source, deviceId, action);
      r == expected && mediator.log == old(mediator.log) + published
  {
    var connection := repo.GetConnection(participant, connectionId);
    if connection.None? {
      return Err(EquipmentNotInitialized);
    }
    mediator.Publish(SendEquipmentCommand(participant, connectionId, source, deviceId, action));
    r := Ok(());
  }
}
