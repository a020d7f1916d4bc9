/** What the client derives from the synchronized conference state: one participant by id,
    the participants other than the local one (named by the `nameid` claim of its access
    token), and the temporary permissions of a participant. Lists that are not yet
    synchronized are absent, and so are the results derived from them. */
module ConferenceSelectors {
  import opened Common
  import opened PermissionStack

  datatype ParticipantDto = ParticipantDto(participantId: string, displayName: string, role: string)

  datatype AccessToken = AccessToken(nameid: string)

  /** The first participant with the given id; none if there is none or no list yet. */
  function SelectParticipant(participants: Option<seq<ParticipantDto>>, participantId: string): Option<ParticipantDto>
  {
    if participants.None? then None else FirstWithId(participants.value, participantId)
  }

  function FirstWithId(list: seq<ParticipantDto>, participantId: string): Option<ParticipantDto>
    decreases |list|
  {
    if list == [] then None
    else if list[0].participantId == participantId then Some(list[0])
    else FirstWithId(list[1..], participantId)
  }

  /** A participant is found exactly when the list holds one with that id, and then it is the
      first of them. */
  lemma {:induction false} SelectParticipantFindsFirst(list: seq<ParticipantDto>, participantId: string)
    ensures SelectParticipant(Some(list), participantId).None?
            <==> forall i :: 0 <= i < |list| ==> list[i].participantId != participantId
    ensures SelectParticipant(Some(list), participantId).Some? ==>
              exists i :: && 0 <= i < |list|
                          && list[i] == SelectParticipant(Some(list), participantId).value
                          && list[i].participantId == participantId
                          && forall j :: 0 <= j < i ==> list[j].participantId != participantId
    decreases |list|
  {
    if list != [] && list[0].participantId != participantId {
      SelectParticipantFindsFirst(list[1..], participantId);
      assert forall i :: 0 < i < |list| ==> list[i] == list[1..][i - 1];
      if FirstWithId(list, participantId).Some? {
        var i :| && 0 <= i < |list[1..]|
                 && list[1..][i] == FirstWithId(list, participantId).value
                 && list[1..][i].participantId == participantId
                 && forall j :: 0 <= j < i ==> list[1..][j].participantId != participantId;
        assert forall j :: 0 < j <= i ==> list[j] == list[1..][j - 1];
        assert list[i + 1] == FirstWithId(list, participantId).value;
      }
    } else if list != [] {
      assert list[0] == FirstWithId(list, participantId).value;
    }
  }

  /** The participants other than the one the token names; with no token nobody is dropped. */
  function SelectOtherParticipants(participants: Option<seq<ParticipantDto>>, token: Option<AccessToken>)
    : Option<seq<ParticipantDto>>
  {
    if participants.None? then None else Some(Others(participants.value, token))
  }

  function Others(list: seq<ParticipantDto>, token: Option<AccessToken>): seq<ParticipantDto>
    decreases |list|
  {
    if list == [] then []
    else (if token.Some? && list[0].participantId == token.value.nameid then [] else [list[0]])
         + Others(list[1..], token)
  }

  /** Exactly the entries with the token's id are dropped: every other entry is kept as often
      as it occurs, and without a token the list is unchanged. */
  lemma {:induction false} OthersDropsExactlyTheTokenId(list: seq<ParticipantDto>, token: Option<AccessToken>,
                                                        p: ParticipantDto)
    ensures multiset(Others(list, token))[p]
            == if token.Some? && p.participantId == token.value.nameid then 0 else multiset(list)[p]
    ensures token.None? ==> Others(list, token) == list
    decreases |list|
  {
    if list != [] {
      OthersDropsExactlyTheTokenId(list[1..], token, p);
      assert list == [list[0]] + list[1..];
    }
  }

  lemma OthersOfCons(x: ParticipantDto, rest: seq<ParticipantDto>, token: Option<AccessToken>)
    ensures Others([x] + rest, token) == Others([x], token) + Others(rest, token)
  {
    assert ([x] + rest)[1..] == rest;
    assert [x][1..] == [];
  }

  lemma OthersKeepsOrderStep(x: ParticipantDto, tail: seq<ParticipantDto>, more: seq<ParticipantDto>,
                             token: Option<AccessToken>)
    requires Others(tail + more, token) == Others(tail, token) + Others(more, token)
    ensures Others([x] + tail + more, token) == Others([x] + tail, token) + Others(more, token)
  {
    assert [x] + tail + more == [x] + (tail + more);
    OthersOfCons(x, tail + more, token);
    OthersOfCons(x, tail, token);
  }

  /** Dropping the token's id keeps the order: it works piece by piece on a concatenation. */
  lemma {:induction false} OthersKeepsOrder(list: seq<ParticipantDto>, more: seq<ParticipantDto>,
                                            token: Option<AccessToken>)
    ensures Others(list + more, token) == Others(list, token) + Others(more, token)
    decreases |list|
  {
    if list != [] {
      OthersKeepsOrder(list[1..], more, token);
      OthersKeepsOrderStep(list[0], list[1..], more, token);
      assert list == [list[0]] + list[1..];
    } else {
      assert list + more == more;
    }
  }

  /** Before the participant list is synchronized, neither selector gives a result. */
  lemma NoListNoResult(participantId: string, token: Option<AccessToken>)
    ensures SelectParticipant(None, participantId) == None
    ensures SelectOtherParticipants(None, token) == None
  {
  }

  /** The temporary permissions of a participant: none without the synchronized map or without
      an entry for the participant. */
  function SelectParticipantTempPermissions(tempPermissions: Option<map<string, Layer>>, participantId: string)
    : Option<Layer>
  {
    if tempPermissions.None? || participantId !in tempPermissions.value then None
    else Some(tempPermissions.value[participantId])
  }

  /** The lookup gives a participant's entry when the map has one and nothing otherwise; an
      entry written for one participant is what the lookup then gives for it, and the other
      participants' lookups do not change. */
  lemma TempPermissionsLookup(tempPermissions: map<string, Layer>, participantId: string, otherId: string, layer: Layer)
    ensures SelectParticipantTempPermissions(None, participantId) == None
    ensures SelectParticipantTempPermissions(Some(tempPermissions), participantId).Some?
            <==> participantId in tempPermissions
    ensures SelectParticipantTempPermissions(Some(tempPermissions[participantId := layer]), participantId) == Some(layer)
    ensures otherId != participantId ==>
              SelectParticipantTempPermissions(Some(tempPermissions[participantId := layer]), otherId)
              == SelectParticipantTempPermissions(Some(tempPermissions), otherId)
  {
  }
}
