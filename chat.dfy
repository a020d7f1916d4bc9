/** Chat: messages are stored per conference and channel, and every message is delivered to
    the recipients of its channel, which are all joined participants for the conference-wide
    channel and the participants in the room for a room channel. Who is typing is kept per
    channel; a participant stops typing when it sends a message, leaves, or leaves the room
    of a room channel. */
module Chat {
  import opened Common

  /** The participants a message in a channel of a conference reaches. */
  function Recipients(conferenceId: string, channel: ChatChannel, joined: set<Participant>,
                      roomOf: map<Participant, string>): set<Participant>
  {
    match channel
    case GlobalChannel => set p | p in joined && p.conferenceId == conferenceId
    case RoomChannel(roomId) => set p | p in roomOf && p.conferenceId == conferenceId && roomOf[p] == roomId
  }

  /** When every participant in a room is joined, a room channel reaches exactly the
      participants of the conference-wide channel that are in that room; so a room message
      never reaches anybody in another room or in no room. */
  lemma RoomChannelIsGlobalChannelInTheRoom(conferenceId: string, roomId: string, joined: set<Participant>,
                                            roomOf: map<Participant, string>)
    requires forall p :: p in roomOf ==> p in joined
    ensures Recipients(conferenceId, RoomChannel(roomId), joined, roomOf)
            == set p | p in Recipients(conferenceId, GlobalChannel, joined, roomOf) && Get(roomOf, p) == Some(roomId)
  {
  }

  /** Two participants in two different rooms: a message to the first room reaches only the
      first participant, and a conference-wide message reaches both. */
  lemma RoomChannelExample(conferenceId: string, first: string, second: string, room1: string, room2: string)
    requires first != second && room1 != room2
    ensures var p1, p2 := Participant(conferenceId, first), Participant(conferenceId, second);
      && Recipients(conferenceId, RoomChannel(room1), {p1, p2}, map[p1 := room1, p2 := room2]) == {p1}
      && Recipients(conferenceId, GlobalChannel, {p1, p2}, map[p1 := room1, p2 := room2]) == {p1, p2}
  {
    var p1, p2 := Participant(conferenceId, first), Participant(conferenceId, second);
    var roomOf := map[p1 := room1, p2 := room2];
    assert p2 !in Recipients(conferenceId, RoomChannel(room1), {p1, p2}, roomOf);
  }

  /** Normalises one bound of a list range: a negative index counts from the end. */
  function FromEnd(index: int, length: nat): int
  {
    if index < 0 then length + index else index
  }

  /** The messages from `start` to `end`, both inclusive, where negative indices count from
      the end (-1 is the last message); out-of-range bounds are clipped and an empty range
      gives no messages. */
  function Window(messages: seq<ChatMessage>, start: int, end: int): seq<ChatMessage>
  {
    var from := if FromEnd(start, |messages|) < 0 then 0 else FromEnd(start, |messages|);
    var to := if FromEnd(end, |messages|) >= |messages| then |messages| - 1 else FromEnd(end, |messages|);
    if from > to then [] else messages[from..to + 1]
  }

  /** Asking for the last `count` messages (from -count to -1) gives all of them when there are
      at most `count`, and otherwise the newest `count`, oldest first. */
  lemma LastMessagesWindow(messages: seq<ChatMessage>, count: nat)
    requires count >= 1
    ensures |messages| <= count ==> Window(messages, -(count as int), -1) == messages
    ensures |messages| > count ==> Window(messages, -(count as int), -1) == messages[|messages| - count..]
  {
    if messages == [] {
      assert Window(messages, -(count as int), -1) == [];
    }
  }

  /** The chat state of all conferences. */
  class ChatService {
    /** the messages of every channel, oldest first */
    var messages: map<(string, ChatChannel), seq<ChatMessage>>
    /** who is typing in which channel */
    var typing: set<(Participant, ChatChannel)>
    const mediator: Mediator

    constructor ()
      ensures messages == map[] && typing == {} && mediator.log == []
      ensures fresh(mediator)
    {
      messages := map[];
      typing := {};
      mediator := new Mediator();
    }

    /** The messages of a channel, none when nothing was sent to it. */
    function MessagesOf(conferenceId: string, channel: ChatChannel): seq<ChatMessage>
      reads this
    {
      if (conferenceId, channel) in messages then messages[(conferenceId, channel)] else []
    }

    /** Sets whether a participant is typing in a channel; nobody else's typing changes. */
    method SetParticipantTyping(participant: Participant, channel: ChatChannel, isTyping: bool)
      modifies this
      ensures messages == old(messages)
      ensures (participant, channel) in typing <==> isTyping
      ensures forall e :: e != (participant, channel) ==> (e in typing <==> e in old(typing))
    {
      if isTyping {
        typing := typing + {(participant, channel)};
      } else {
        typing := typing - {(participant, channel)};
      }
    }

    /** Stores a message, delivers it to the channel's recipients together with the channel's
        new message count, and ends the sender's typing in that channel. */
    method SendChatMessage(sender: Participant, senderMeta: string, text: string, options: string,
                           channel: ChatChannel, joined: set<Participant>, roomOf: map<Participant, string>)
      modifies this, mediator
      ensures var message := ChatMessage(sender.id, senderMeta, text, options);
        && messages == old(messages)[(sender.conferenceId, channel) := old(MessagesOf(sender.conferenceId, channel)) + [message]]
        && mediator.log == old(mediator.log)
           + [ChatMessageReceived(sender.conferenceId, Recipients(sender.conferenceId, channel, joined, roomOf), message,
                                  channel, |old(MessagesOf(sender.conferenceId, channel))| + 1)]
      ensures typing == old(typing) - {(sender, channel)}
    {
      var message := ChatMessage(sender.id, senderMeta, text, options);
      var stored := MessagesOf(sender.conferenceId, channel) + [message];
      messages := messages[(sender.conferenceId, channel) := stored];
      mediator.Publish(ChatMessageReceived(sender.conferenceId, Recipients(sender.conferenceId, channel, joined, roomOf),
                                           message, channel, |stored|));
      typing := typing - {(sender, channel)};
    }

    /** A participant left: it stops typing everywhere. */
    method OnParticipantLeft(participant: Participant)
      modifies this
      ensures messages == old(messages)
      ensures forall e :: e in typing <==> e in old(typing) && e.0 != participant
    {
      typing := set e | e in typing && e.0 != participant;
    }

    /** Participants changed rooms: each stops typing in the channel of the room it left. */
    method OnParticipantsRoomChanged(changes: map<Participant, RoomChange>)
      modifies this
      ensures messages == old(messages)
      ensures forall e :: e in typing <==> e in old(typing) && !LeftChannel(changes, e.0, e.1)
    {
      typing := set e | e in typing && !LeftChannel(changes, e.0, e.1);
    }

    /** The total number of messages of a channel, and those in the range from `start` to
        `end` (see Window). */
    method FetchMessages(conferenceId: string, channel: ChatChannel, start: int, end: int)
      returns (total: nat, result: seq<ChatMessage>)
      ensures total == |MessagesOf(conferenceId, channel)|
      ensures result == Window(MessagesOf(conferenceId, channel), start, end)
    {
      var all := MessagesOf(conferenceId, channel);
      total := |all|;
      result := Window(all, start, end);
    }
  }

  /** Whether a room change took the participant out of the room of a room channel. */
  predicate LeftChannel(changes: map<Participant, RoomChange>, participant: Participant, channel: ChatChannel)
  {
    && participant in changes
    && channel.RoomChannel?
    && match changes[participant]
       case Joined(_) => false
       case Switched(from, _) => from == channel.roomId
       case Left(from) => from == channel.roomId
  }

  /** The chat flow of one participant: typing shows, a message ends it, and fetching the last
      fifty messages afterwards gives that one message out of one. */
  method TypingThenMessageScenario(participant: Participant)
  {
    var chat := new ChatService();
    chat.SetParticipantTyping(participant, GlobalChannel, true);
    assert (participant, GlobalChannel) in chat.typing;
    chat.SendChatMessage(participant, "meta", "Hello World", "", GlobalChannel, {participant}, map[]);
    assert chat.typing == {};
    var total, result := chat.FetchMessages(participant.conferenceId, GlobalChannel, -50, -1);
    LastMessagesWindow(chat.MessagesOf(participant.conferenceId, GlobalChannel), 50);
    assert total == 1 && |result| == 1;
    var emptyTotal, emptyResult := chat.FetchMessages(participant.conferenceId, RoomChannel("room"), -50, -1);
    assert emptyTotal == 0 && emptyResult == [];
  }
}
