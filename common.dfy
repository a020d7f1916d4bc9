/** Values shared by the server-side services of the conference: identities, chat
    channels, room transition tags, the messages that travel over the mediator, and the
    mediator itself, modelled as an append-only log of everything sent or published. */
module Common {

  datatype Option<+T> = None | Some(value: T)

  datatype Result<+T, +E> = Ok(value: T) | Err(error: E)

  /** A participant is identified by the conference it belongs to and its own id. */
  datatype Participant = Participant(conferenceId: string, id: string)

  /** The chat channels the tests exercise: the conference-wide channel and one channel per room. */
  datatype ChatChannel = GlobalChannel | RoomChannel(roomId: string)

  /** How one participant's room changed, relative to its previous room. */
  datatype RoomChange = Joined(room: string) | Switched(from: string, to: string) | Left(room: string)

  /** The key of one independently synchronised object: a kind and an optional scope. */
  datatype SynchronizedObjectId = SynchronizedObjectId(kind: string, scope: Option<string>)

  datatype KickReason = NewSessionConnected | ByModerator

  /** A chat message as it is stored and delivered. */
  datatype ChatMessage = ChatMessage(senderId: string, senderMeta: string, text: string, options: string)

  /** The error kinds the services report to their callers. */
  datatype ServiceError =
    | ConcurrencyFailure
    | PermissionDenied
    | EquipmentNotInitialized
    /** a permission key that is not known, or a value of the wrong type for it */
    | PermissionValueInvalid

  /** Every request sent and every notification published through the mediator. */
  datatype Message =
    | SetParticipantTyping(participant: Participant, channel: ChatChannel, isTyping: bool)
    | ParticipantKicked(kicked: Participant, connectionId: Option<string>, reason: KickReason)
    | ParticipantInitialized(initialized: Participant)
    | EnableParticipantMessaging(enabled: Participant, messagingConnectionId: string)
    | ParticipantJoined(joined: Participant, meta: string)
    | ParticipantLeft(left: Participant, leftConnectionId: string)
    | ConferenceOpened(openedId: string)
    | ConferenceClosed(closedId: string)
    | RoomsCreated(createdIn: string, createdRooms: seq<string>)
    | RoomsRemoved(removedFrom: string, removedRooms: seq<string>)
    /** the room-change notification of the rooms use cases: one transition tag per participant */
    | ParticipantsRoomChanged(changedIn: string, changes: map<Participant, RoomChange>)
    /** the older room-change notification, which only lists the participants */
    | ParticipantsRoomChangedList(listedIn: string, listed: seq<Participant>)
    | ParticipantSubscriptionsUpdated(subscriber: Participant, removed: seq<SynchronizedObjectId>,
                                      added: seq<SynchronizedObjectId>)
    | SendEquipmentCommand(commanded: Participant, equipmentConnectionId: string, source: string,
                           deviceId: string, action: string)
    | ChatMessageReceived(chatConferenceId: string, recipients: set<Participant>, message: ChatMessage,
                          channel: ChatChannel, totalMessagesInChannel: nat)

  /** The mediator: requests are sent and notifications published in one observable order. */
  class Mediator {
    var log: seq<Message>

    constructor ()
      ensures log == []
    {
      log := [];
    }

    method Send(m: Message)
      modifies this
      ensures log == old(log) + [m]
    {
      log := log + [m];
    }

    method Publish(m: Message)
      modifies this
      ensures log == old(log) + [m]
    {
      log := log + [m];
    }
  }

  /** The entry of a dictionary, if there is one. */
  function Get<K, V>(m: map<K, V>, k: K): (r: Option<V>)
    ensures r.Some? <==> k in m
    ensures r.Some? ==> r.value == m[k]
  {
    if k in m then Some(m[k]) else None
  }

  /** No element occurs twice. */
  predicate Distinct<T(==)>(xs: seq<T>)
  {
    forall i, j :: 0 <= i < j < |xs| ==> xs[i] != xs[j]
  }

  /** Enumerates a finite set as a list, each element once, in an unspecified order
      (the order in which a repository or a dictionary hands its entries out). */
  method Enumerate<T(==)>(s: set<T>) returns (xs: seq<T>)
    ensures Distinct(xs)
    ensures forall x :: x in xs <==> x in s
    ensures |xs| == |s|
  {
    xs := [];
    var rest := s;
    while rest != {}
      invariant Distinct(xs)
      invariant forall x :: x in xs <==> x in s && x !in rest
      invariant rest <= s
      invariant |xs| + |rest| == |s|
      decreases |rest|
    {
      var x :| x in rest;
      xs := xs + [x];
      rest := rest - {x};
    }
  }

  /** How many entries of a log satisfy a predicate on messages. */
  function Count(log: seq<Message>, p: Message -> bool): (n: nat)
    ensures n <= |log|
    ensures n == 0 <==> forall i :: 0 <= i < |log| ==> !p(log[i])
  {
    if log == [] then 0 else (if p(log[|log| - 1]) then 1 else 0) + Count(log[..|log| - 1], p)
  }

  /** A log of one message counts that message when it satisfies the predicate. */
  lemma CountOne(m: Message, p: Message -> bool)
    ensures Count([m], p) == (if p(m) then 1 else 0)
  {
    assert [m][..0] == [];
  }

  /** Counting over a concatenated log adds up. */
  lemma {:induction false} CountAppend(a: seq<Message>, b: seq<Message>, p: Message -> bool)
    ensures Count(a + b, p) == Count(a, p) + Count(b, p)
    decreases |b|
  {
    if b == [] {
      assert a + b == a;
    } else {
      assert (a + b)[..|a + b| - 1] == a + b[..|b| - 1];
      CountAppend(a, b[..|b| - 1], p);
    }
  }
}
