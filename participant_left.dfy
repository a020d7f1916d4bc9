/** When a participant leaves, the synchronisation service drops every synchronised-object
    subscription of that participant in one repository call, and announces the dropped
    subscriptions, so that dependent state (such as typing indicators) can be cleaned up. */
module SubscriptionCleanup {
  import opened Common

  /** The subscriptions repository: the synchronised-object ids each participant follows, as
      the repository stores them (their text form). */
  class SubscriptionsRepository {
    var subscriptions: map<Participant, seq<string>>

    constructor ()
      ensures subscriptions == map[]
    {
      subscriptions := map[];
    }

    /** Removes all subscriptions of the participant and returns them; nothing when it had none. */
    method Remove(participant: Participant) returns (removed: Option<seq<string>>)
      modifies this
      ensures removed == Get(old(subscriptions), participant)
      ensures subscriptions == old(subscriptions) - {participant}
    {
      removed := Get(subscriptions, participant);
      subscriptions := subscriptions - {participant};
    }
  }

  /** Parses each stored id, in order; the text format of an id is given as `parse`. */
  function ParseAll(ids: seq<string>, parse: string -> SynchronizedObjectId): (parsed: seq<SynchronizedObjectId>)
    ensures |parsed| == |ids|
    ensures forall i :: 0 <= i < |ids| ==> parsed[i] == parse(ids[i])
  {
    seq(|ids|, i requires 0 <= i < |ids| => parse(ids[i]))
  }

  /** What the handler publishes for the subscriptions it removed: one update with the removed
      ids and nothing added, or nothing when no subscription was removed. */
  function LeftNotifications(participant: Participant, removed: Option<seq<string>>,
                             parse: string -> SynchronizedObjectId): (ms: seq<Message>)
    ensures |ms| <= 1
    ensures ms != [] <==> removed.Some? && removed.value != []
    ensures ms != [] ==>
      && ms[0].ParticipantSubscriptionsUpdated? && ms[0].subscriber == participant
      && ms[0].added == [] && |ms[0].removed| == |removed.value|
      && forall i :: 0 <= i < |removed.value| ==> ms[0].removed[i] == parse(removed.value[i])
  {
    if removed.Some? && removed.value != [] then
      [ParticipantSubscriptionsUpdated(participant, ParseAll(removed.value, parse), [])]
    else []
  }

  /** Handles a participant leaving. The connection it left with plays no part. */
  method HandleParticipantLeft(repo: SubscriptionsRepository, mediator: Mediator, participant: Participant,
                               connectionId: string, parse: string -> SynchronizedObjectId)
    modifies repo, mediator
    ensures repo.subscriptions == old(repo.subscriptions) - {participant}
    ensures mediator.log == old(mediator.log)
      + LeftNotifications(participant, Get(old(repo.subscriptions), participant), parse)
  {
    var removed := repo.Remove(participant);
    if removed.Some? && removed.value != [] {
      mediator.Publish(ParticipantSubscriptionsUpdated(participant, ParseAll(removed.value, parse), []));
    }
  }
}
