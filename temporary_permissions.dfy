/** Temporary permissions: per-participant overrides that sit on top of a participant's
    permission layers. Moderators grant and revoke them (the right to do so is itself a
    permission, resolved through the same layers), they disappear when their participant
    leaves, and a participant may read its own layers while only moderators may read another
    participant's. */
module TemporaryPermissions {
  import opened Common
  import opened PermissionStack

  /** The permission that allows granting and revoking temporary permissions. */
  const CanGiveTemporaryPermission := PermissionDescriptor("CanGiveTemporaryPermission", BoolType)

  /** The conference's configured layers: the conference-wide defaults, the moderator layer
      and one layer per room. */
  datatype PermissionConfiguration = PermissionConfiguration(conference: Layer, moderator: Layer,
                                                             rooms: map<string, Layer>)

  /** A participant's layers as handed to a caller who may see them. */
  datatype ParticipantPermissions = ParticipantPermissions(participantId: string, layers: seq<Layer>)

  /** The layers that apply to a participant, lowest priority first: the conference defaults,
      the moderator layer for a moderator, the layer of the participant's room, and the
      participant's temporary permissions. */
  function ParticipantLayers(config: PermissionConfiguration, isModerator: bool, room: Option<string>,
                             temporary: Option<Layer>): seq<Layer>
  {
    [config.conference]
    + (if isModerator then [config.moderator] else [])
    + (if room.Some? && room.value in config.rooms then [config.rooms[room.value]] else [])
    + (if temporary.Some? then [temporary.value] else [])
  }

  /** Whether a boolean permission resolves to true. */
  predicate Allows(layers: seq<Layer>, d: PermissionDescriptor)
  {
    GetPermissionValue(layers, d) == Ok(BoolValue(true))
  }

  /** No participant keeps an empty set of temporary permissions. */
  predicate NoEmptyEntries(grants: map<string, Layer>)
  {
    forall p :: p in grants ==> grants[p] != map[]
  }

  /** A participant's temporary permissions, empty when it has none. */
  function TemporaryOf(grants: map<string, Layer>, participantId: string): Layer
  {
    if participantId in grants then grants[participantId] else map[]
  }

  /** The temporary permissions after one is set (a value) or revoked (no value); a
      participant whose last temporary permission is revoked loses its entry. */
  function WithTemporary(grants: map<string, Layer>, targetId: string, key: string,
                         value: Option<PermissionValue>): map<string, Layer>
  {
    if value.Some? then
      grants[targetId := TemporaryOf(grants, targetId)[key := value.value]]
    else if targetId !in grants then grants
    else if grants[targetId] - {key} == map[] then grants - {targetId}
    else grants[targetId := grants[targetId] - {key}]
  }

  /** Setting or revoking touches only the target's key: the target's temporary layer then
      holds the value (or lacks the key), its other keys and every other participant's entry
      are as before, and no empty entry is left behind. */
  lemma WithTemporaryChangesOnlyTheKey(grants: map<string, Layer>, targetId: string, key: string,
                                       value: Option<PermissionValue>)
    requires NoEmptyEntries(grants)
    ensures var after := WithTemporary(grants, targetId, key, value);
      && NoEmptyEntries(after)
      && (forall p :: p != targetId ==> Get(after, p) == Get(grants, p))
      && (value.Some? ==> targetId in after && Get(after[targetId], key) == value)
      && (value.None? ==> targetId !in after || key !in after[targetId])
      && (forall k :: k != key ==> Get(TemporaryOf(after, targetId), k) == Get(TemporaryOf(grants, targetId), k))
  {
    var after := WithTemporary(grants, targetId, key, value);
    if value.Some? {
      assert key in after[targetId];
    }
  }

  /** Revoking a permission that was granted to a participant without other temporary
      permissions restores the previous state exactly. */
  lemma GrantThenRevokeRestores(grants: map<string, Layer>, targetId: string, key: string, value: PermissionValue)
    requires targetId !in grants
    ensures WithTemporary(WithTemporary(grants, targetId, key, Some(value)), targetId, key, None) == grants
  {
    var granted := WithTemporary(grants, targetId, key, Some(value));
    assert granted[targetId] - {key} == map[];
  }

  /** A temporary permission decides the participant's effective value for its key, whatever
      the lower layers say. */
  lemma TemporaryLayerDecides(config: PermissionConfiguration, isModerator: bool, room: Option<string>,
                              temporary: Layer, d: PermissionDescriptor)
    requires d.key in temporary
    ensures GetPermissionValue(ParticipantLayers(config, isModerator, room, Some(temporary)), d)
            == if ValidateValue(d, temporary[d.key]) then Ok(temporary[d.key]) else Err(ValueTypeMismatch(d.key))
  {
    var layers := ParticipantLayers(config, isModerator, room, Some(temporary));
    FlattenLastWins(layers, |layers| - 1, d.key);
  }

  /** Without a temporary permission for a key, the participant's effective value for it is
      what the configured layers give. */
  lemma NoTemporaryFallsBack(config: PermissionConfiguration, isModerator: bool, room: Option<string>,
                             temporary: Option<Layer>, d: PermissionDescriptor)
    requires temporary.None? || d.key !in temporary.value
    ensures GetPermissionValue(ParticipantLayers(config, isModerator, room, temporary), d)
            == GetPermissionValue(ParticipantLayers(config, isModerator, room, None), d)
  {
    if temporary.Some? {
      FlattenPush(ParticipantLayers(config, isModerator, room, None), temporary.value);
      assert ParticipantLayers(config, isModerator, room, temporary)
             == ParticipantLayers(config, isModerator, room, None) + [temporary.value];
    }
  }

  /** The moderator layer decides a moderator's value for a key that neither the room layer
      nor a temporary permission sets; so configuring a moderator permission as false makes
      it resolve to false for moderators. */
  lemma ModeratorLayerDecides(config: PermissionConfiguration, room: Option<string>, temporary: Option<Layer>,
                              d: PermissionDescriptor)
    requires d.key in config.moderator
    requires room.None? || room.value !in config.rooms || d.key !in config.rooms[room.value]
    requires temporary.None? || d.key !in temporary.value
    ensures GetPermissionValue(ParticipantLayers(config, true, room, temporary), d)
            == if ValidateValue(d, config.moderator[d.key]) then Ok(config.moderator[d.key])
               else Err(ValueTypeMismatch(d.key))
  {
    var layers := ParticipantLayers(config, true, room, temporary);
    assert layers[1] == config.moderator;
    forall j | 1 < j < |layers|
      ensures d.key !in layers[j]
    {
    }
    FlattenLastWins(layers, 1, d.key);
  }

  /** A participant who is not a moderator and has no layer setting the grant permission
      cannot grant temporary permissions, while a moderator whose moderator layer grants it
      can, unless a higher layer revokes it. */
  lemma GrantRightFollowsModeratorLayer(config: PermissionConfiguration, room: Option<string>, temporary: Option<Layer>)
    requires CanGiveTemporaryPermission.key !in config.conference
    requires room.None? || room.value !in config.rooms || CanGiveTemporaryPermission.key !in config.rooms[room.value]
    requires temporary.None? || CanGiveTemporaryPermission.key !in temporary.value
    ensures !Allows(ParticipantLayers(config, false, room, temporary), CanGiveTemporaryPermission)
    ensures Allows(ParticipantLayers(config, true, room, temporary), CanGiveTemporaryPermission)
            <==> Get(config.moderator, CanGiveTemporaryPermission.key) == Some(BoolValue(true))
  {
    var d := CanGiveTemporaryPermission;
    NoLayerSetsKey(config, false, room, temporary, d.key);
    if d.key in config.moderator {
      ModeratorLayerDecides(config, room, temporary, d);
    } else {
      NoLayerSetsKey(config, true, room, temporary, d.key);
    }
  }

  /** A key that none of a participant's layers sets is not in their overlaid permissions. */
  lemma NoLayerSetsKey(config: PermissionConfiguration, isModerator: bool, room: Option<string>,
                       temporary: Option<Layer>, key: string)
    requires key !in config.conference
    requires isModerator ==> key !in config.moderator
    requires room.None? || room.value !in config.rooms || key !in config.rooms[room.value]
    requires temporary.None? || key !in temporary.value
    ensures key !in Flatten(ParticipantLayers(config, isModerator, room, temporary))
  {
    var conference: seq<Layer> := [config.conference];
    var moderator := if isModerator then [config.moderator] else [];
    var roomLayer := if room.Some? && room.value in config.rooms then [config.rooms[room.value]] else [];
    var temporaryLayer := if temporary.Some? then [temporary.value] else [];
    assert [] + conference == conference;
    PushKeepsKeyOut([], conference, key);
    PushKeepsKeyOut(conference, moderator, key);
    PushKeepsKeyOut(conference + moderator, roomLayer, key);
    PushKeepsKeyOut(conference + moderator + roomLayer, temporaryLayer, key);
  }

  /** Pushing no layer, or one that does not set a key, leaves the key unset. */
  lemma PushKeepsKeyOut(layers: seq<Layer>, extra: seq<Layer>, key: string)
    requires key !in Flatten(layers)
    requires |extra| <= 1 && (extra != [] ==> key !in extra[0])
    ensures key !in Flatten(layers + extra)
  {
    if extra != [] {
      FlattenPush(layers, extra[0]);
      assert extra == [extra[0]];
      assert Get(Flatten(layers), key) == None;
    } else {
      assert layers + extra == layers;
    }
  }

  /** The permission service of one conference. */
  class PermissionService {
    var config: PermissionConfiguration
    var moderators: set<string>
    /** the room each participant is in */
    var roomOf: map<string, string>
    /** the temporary permissions, per participant id */
    var grants: map<string, Layer>

    ghost predicate Valid()
      reads this
    {
      NoEmptyEntries(grants)
    }

    constructor (config: PermissionConfiguration, moderators: set<string>, roomOf: map<string, string>)
      ensures Valid()
      ensures this.config == config && this.moderators == moderators && this.roomOf == roomOf
      ensures grants == map[]
    {
      this.config := config;
      this.moderators := moderators;
      this.roomOf := roomOf;
      grants := map[];
    }

    /** The layers that apply to a participant now. */
    function LayersOf(participantId: string): seq<Layer>
      reads this
    {
      ParticipantLayers(config, participantId in moderators, Get(roomOf, participantId), Get(grants, participantId))
    }

    /** Grants (a value) or revokes (no value) a temporary permission of the target. The
        issuer must hold the grant permission; a granted value must have the type of a known
        permission. */
    method SetTemporaryPermission(issuerId: string, targetId: string, key: string, value: Option<PermissionValue>,
                                  known: map<string, PermissionDescriptor>)
      returns (r: Result<(), ServiceError>)
      requires Valid()
      modifies this
      ensures Valid()
      ensures config == old(config) && moderators == old(moderators) && roomOf == old(roomOf)
      ensures r.Ok? <==> old(Allows(LayersOf(issuerId), CanGiveTemporaryPermission))
                         && (value.None? || (key in known && ValidateValue(known[key], value.value)))
      ensures r.Err? ==> grants == old(grants)
      ensures r.Err? ==> (r.error == PermissionDenied <==> !old(Allows(LayersOf(issuerId), CanGiveTemporaryPermission)))
      ensures r.Err? ==> r.error in {PermissionDenied, PermissionValueInvalid}
      ensures r.Ok? ==> grants == WithTemporary(old(grants), targetId, key, value)
    {
      if !Allows(LayersOf(issuerId), CanGiveTemporaryPermission) {
        return Err(PermissionDenied);
      }
      if value.Some? && !(key in known && ValidateValue(known[key], value.value)) {
        return Err(PermissionValueInvalid);
      }
      WithTemporaryChangesOnlyTheKey(grants, targetId, key, value);
      grants := WithTemporary(grants, targetId, key, value);
      r := Ok(());
    }

    /** Drops the temporary permissions of a participant that left. */
    method RemoveTemporaryPermissions(participantId: string)
      requires Valid()
      modifies this
      ensures Valid()
      ensures config == old(config) && moderators == old(moderators) && roomOf == old(roomOf)
      ensures grants == old(grants) - {participantId}
    {
      grants := grants - {participantId};
    }

    /** The layers of the target (the issuer itself when no target is given). A participant
        may read its own layers; reading another participant's requires being a moderator. */
    method FetchPermissions(issuerId: string, targetId: Option<string>) returns (r: Result<ParticipantPermissions, ServiceError>)
      ensures var target := if targetId.Some? then targetId.value else issuerId;
        && (r.Ok? <==> target == issuerId || issuerId in moderators)
        && (r.Ok? ==> r.value.participantId == target && r.value.layers == LayersOf(target) && |r.value.layers| >= 1)
        && (r.Err? ==> r.error == PermissionDenied)
    {
      var target := if targetId.Some? then targetId.value else issuerId;
      if target != issuerId && issuerId !in moderators {
        return Err(PermissionDenied);
      }
      r := Ok(ParticipantPermissions(target, LayersOf(target)));
    }
  }

  /** A moderator grants a participant the grant permission, which then holds for that
      participant; revoking it again leaves no temporary permissions at all. */
  method GrantAndRevokeScenario(config: PermissionConfiguration, moderatorId: string, userId: string)
    requires Get(config.moderator, CanGiveTemporaryPermission.key) == Some(BoolValue(true))
    requires CanGiveTemporaryPermission.key !in config.conference && config.rooms == map[]
    requires moderatorId != userId
  {
    var service := new PermissionService(config, {moderatorId}, map[]);
    GrantRightFollowsModeratorLayer(config, None, None);
    var known := map[CanGiveTemporaryPermission.key := CanGiveTemporaryPermission];
    var r := service.SetTemporaryPermission(moderatorId, userId, CanGiveTemporaryPermission.key,
                                            Some(BoolValue(true)), known);
    assert r.Ok?;
    assert service.grants == map[userId := map[CanGiveTemporaryPermission.key := BoolValue(true)]];
    TemporaryLayerDecides(config, false, None, service.grants[userId], CanGiveTemporaryPermission);
    assert Allows(service.LayersOf(userId), CanGiveTemporaryPermission);
    var denied := service.FetchPermissions(userId, Some(moderatorId));
    assert denied == Err(PermissionDenied);
    GrantRightFollowsModeratorLayer(config, None, None);
    r := service.SetTemporaryPermission(moderatorId, userId, CanGiveTemporaryPermission.key, None, known);
    assert r.Ok?;
    assert service.grants == map[];
  }
}
