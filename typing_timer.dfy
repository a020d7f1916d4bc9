/** The typing-indicator timer multiplexer: many (participant, channel) deadlines share one
    live wait on the earliest of them. When that wait elapses the entry is removed, and only
    if the removal succeeds is a "typing = false" request sent. Time is an integer clock
    passed to every step; the cancellable delay is the pair of steps DelayElapsed/Resume. */
module TypingTimer {
  import opened Common

  datatype ParticipantInChannel = ParticipantInChannel(participant: Participant, channel: ChatChannel)

  /** The one live wait: the entry it was armed for and that entry's deadline. */
  datatype Wait = Wait(target: ParticipantInChannel, deadline: int)

  type Timers = map<ParticipantInChannel, int>

  /** k holds a minimum deadline among the entries. */
  predicate IsEarliest(timers: Timers, k: ParticipantInChannel)
  {
    k in timers && forall j :: j in timers ==> timers[k] <= timers[j]
  }

  /** The entries whose deadline has not been reached at time now. */
  function Pending(timers: Timers, now: int): (r: Timers)
    ensures forall k :: k in r <==> k in timers && timers[k] > now
    ensures forall k :: k in r ==> r[k] == timers[k]
  {
    map k | k in timers && timers[k] > now :: timers[k]
  }

  /** The "typing = false" requests sent for the given entries, in order. */
  function TypingOff(ks: seq<ParticipantInChannel>): (r: seq<Message>)
    ensures |r| == |ks|
    ensures forall i :: 0 <= i < |ks| ==> r[i] == SetParticipantTyping(ks[i].participant, ks[i].channel, false)
  {
    seq(|ks|, i requires 0 <= i < |ks| => SetParticipantTyping(ks[i].participant, ks[i].channel, false))
  }

  /** The entries of timers that belong to a participant. */
  function OfParticipant(timers: Timers, participant: Participant): (r: set<ParticipantInChannel>)
    ensures forall k :: k in r <==> k in timers && k.participant == participant
  {
    set k | k in timers && k.participant == participant
  }

  /** The entries of timers whose participant belongs to a conference. */
  function OfConference(timers: Timers, conferenceId: string): (r: set<ParticipantInChannel>)
    ensures forall k :: k in r <==> k in timers && k.participant.conferenceId == conferenceId
  {
    set k | k in timers && k.participant.conferenceId == conferenceId
  }

  /** fired lists, without repetition and in non-decreasing deadline order, exactly the
      entries of timers that were due at time now. */
  ghost predicate FiredInOrder(timers: Timers, now: int, fired: seq<ParticipantInChannel>)
  {
    && (forall i, j :: 0 <= i < j < |fired| ==> fired[i] != fired[j])
    && (forall i :: 0 <= i < |fired| ==> fired[i] in timers && timers[fired[i]] <= now)
    && (forall k :: k in timers && timers[k] <= now ==> k in fired)
    && (forall i, j :: 0 <= i < j < |fired| ==> timers[fired[i]] <= timers[fired[j]])
  }

  /** Every non-empty set of deadlines has an earliest entry. */
  lemma {:induction false} EarliestExists(timers: Timers)
    requires timers != map[]
    ensures exists k :: IsEarliest(timers, k)
    decreases |timers|
  {
    var x :| x in timers;
    var rest := timers - {x};
    if rest == map[] {
      forall j | j in timers
        ensures timers[x] <= timers[j]
      {
        assert j !in rest;
        assert j == x;
      }
      assert IsEarliest(timers, x);
    } else {
      assert |rest| < |timers| by {
        assert rest.Keys == timers.Keys - {x};
      }
      EarliestExists(rest);
      var y :| IsEarliest(rest, y);
      assert forall j :: j in timers ==> j == x || j in rest;
      if timers[x] <= rest[y] {
        assert IsEarliest(timers, x);
      } else {
        assert IsEarliest(timers, y);
      }
    }
  }

  /** The loop of Reschedule has so far removed and fired exactly the entries in fired,
      earliest first, each due at now; remaining holds the rest of timers unchanged. */
  ghost predicate DrainedInOrder(timers: Timers, now: int, remaining: Timers, fired: seq<ParticipantInChannel>)
  {
    && (forall k :: k in remaining <==> k in timers && k !in fired)
    && (forall k :: k in remaining ==> remaining[k] == timers[k])
    && (forall i, j :: 0 <= i < j < |fired| ==> fired[i] != fired[j])
    && (forall i :: 0 <= i < |fired| ==> fired[i] in timers && timers[fired[i]] <= now)
    && (forall i, j :: 0 <= i < j < |fired| ==> timers[fired[i]] <= timers[fired[j]])
    && (forall i, k :: 0 <= i < |fired| && k in remaining ==> timers[fired[i]] <= remaining[k])
  }

  /** Firing an earliest remaining entry that is due keeps the drain in order. */
  lemma DrainStep(timers: Timers, now: int, remaining: Timers, fired: seq<ParticipantInChannel>,
                  next: ParticipantInChannel)
    requires DrainedInOrder(timers, now, remaining, fired)
    requires IsEarliest(remaining, next) && remaining[next] <= now
    ensures DrainedInOrder(timers, now, remaining - {next}, fired + [next])
  {
    var fired' := fired + [next];
    forall i, j | 0 <= i < j < |fired'|
      ensures fired'[i] != fired'[j] && timers[fired'[i]] <= timers[fired'[j]]
    {
      if j == |fired| {
        assert fired'[j] == next && fired'[i] == fired[i];
      }
    }
  }

  /** Once nothing remaining is due, the drain has fired exactly the due entries. */
  lemma DrainComplete(timers: Timers, now: int, remaining: Timers, fired: seq<ParticipantInChannel>)
    requires DrainedInOrder(timers, now, remaining, fired)
    requires forall k :: k in remaining ==> remaining[k] > now
    ensures remaining == Pending(timers, now)
    ensures FiredInOrder(timers, now, fired)
  {
    forall k | k in timers && timers[k] <= now
      ensures k in fired
    {
      assert k !in remaining;
    }
  }

  /** When an earliest entry is not yet due, no entry is. */
  lemma EarliestAheadMeansNoneDue(timers: Timers, target: ParticipantInChannel, now: int)
    requires IsEarliest(timers, target) && timers[target] > now
    ensures forall k :: k in timers ==> timers[k] > now
  {
  }

  lemma TypingOffAppend(ks: seq<ParticipantInChannel>, k: ParticipantInChannel)
    ensures TypingOff(ks + [k]) == TypingOff(ks) + [SetParticipantTyping(k.participant, k.channel, false)]
  {
  }

  /** When nothing is due, nothing fires. */
  lemma NothingDueFiresNothing(timers: Timers, now: int, fired: seq<ParticipantInChannel>)
    requires FiredInOrder(timers, now, fired)
    requires forall k :: k in timers ==> timers[k] > now
    ensures fired == []
  {
    FirstIsMember(fired);
  }

  lemma FirstIsMember<T>(s: seq<T>)
    ensures s != [] ==> s[0] in s
  {
  }

  class ParticipantTypingTimer {
    /** the deadline of every armed (participant, channel) entry */
    var timers: Timers
    /** the one live wait, if any */
    var armed: Option<Wait>
    /** waits that have elapsed and whose loop is about to remove its target */
    var resumed: seq<ParticipantInChannel>
    const mediator: Mediator

    /** The live wait is on an earliest entry; when no wait is live, either nothing is armed
        or an elapsed wait is still to resume and re-arm. */
    ghost predicate Valid()
      reads this
    {
      && (armed.Some? ==> IsEarliest(timers, armed.value.target) && timers[armed.value.target] == armed.value.deadline)
      && (armed.None? && timers != map[] ==> resumed != [])
    }

    constructor (mediator: Mediator)
      ensures Valid() && this.mediator == mediator
      ensures timers == map[] && armed == None && resumed == []
    {
      this.mediator := mediator;
      timers := map[];
      armed := None;
      resumed := [];
    }

    /** Cancels the live wait, sends "typing = false" for every entry already due at now
        (earliest first, without waiting) and arms a wait on the earliest remaining entry. */
    method Reschedule(now: int) returns (ghost fired: seq<ParticipantInChannel>)
      modifies this, mediator
      ensures timers == Pending(old(timers), now)
      ensures FiredInOrder(old(timers), now, fired)
      ensures mediator.log == old(mediator.log) + TypingOff(fired)
      ensures armed.None? <==> timers == map[]
      ensures armed.Some? ==> IsEarliest(timers, armed.value.target) && timers[armed.value.target] == armed.value.deadline
      ensures armed.Some? ==> armed.value.deadline > now
      ensures resumed == old(resumed)
      ensures Valid()
    {
      ghost var t0 := timers;
      var remaining, wait;
      remaining, fired, wait := Drain(timers, now);
      timers := remaining;
      armed := wait;
    }

    /** Fires, earliest first, every entry of the given deadlines that is due at now, and
        picks the wait on the earliest entry still ahead, if any. */
    method Drain(t0: Timers, now: int)
      returns (remaining: Timers, ghost fired: seq<ParticipantInChannel>, wait: Option<Wait>)
      modifies mediator
      ensures remaining == Pending(t0, now)
      ensures FiredInOrder(t0, now, fired)
      ensures mediator.log == old(mediator.log) + TypingOff(fired)
      ensures wait.None? <==> remaining == map[]
      ensures wait.Some? ==> IsEarliest(remaining, wait.value.target) && remaining[wait.value.target] == wait.value.deadline
      ensures wait.Some? ==> wait.value.deadline > now
    {
      remaining := t0;
      fired := [];
      wait := None;
      var done := false;
      while !done
        invariant DrainedInOrder(t0, now, remaining, fired)
        invariant mediator.log == old(mediator.log) + TypingOff(fired)
        invariant done ==> forall k :: k in remaining ==> remaining[k] > now
        invariant done ==> (wait.None? <==> remaining == map[])
        invariant wait.Some? ==> IsEarliest(remaining, wait.value.target)
                                 && remaining[wait.value.target] == wait.value.deadline > now
        decreases |remaining|, if done then 0 else 1
      {
        if remaining == map[] {
          done := true;
        } else {
          EarliestExists(remaining);
          var next :| IsEarliest(remaining, next);
          if remaining[next] > now {
            // the earliest entry is still ahead: arm the one live wait on it
            wait := Some(Wait(next, remaining[next]));
            EarliestAheadMeansNoneDue(remaining, next, now);
            done := true;
          } else {
            // its deadline has already passed: fire without waiting
            remaining, fired := FireDue(t0, now, remaining, fired, next, old(mediator.log));
          }
        }
      }
      DrainComplete(t0, now, remaining, fired);
    }

    /** Removes a due earliest entry and, as the removal succeeded, sends its
        "typing = false" request. */
    method FireDue(ghost t0: Timers, now: int, remaining: Timers, ghost fired: seq<ParticipantInChannel>,
                   next: ParticipantInChannel, ghost sentBefore: seq<Message>)
      returns (rest: Timers, ghost firedNow: seq<ParticipantInChannel>)
      requires DrainedInOrder(t0, now, remaining, fired)
      requires IsEarliest(remaining, next) && remaining[next] <= now
      requires mediator.log == sentBefore + TypingOff(fired)
      modifies mediator
      ensures DrainedInOrder(t0, now, rest, firedNow)
      ensures rest == remaining - {next} && firedNow == fired + [next] && |rest| < |remaining|
      ensures mediator.log == sentBefore + TypingOff(firedNow)
    {
      DrainStep(t0, now, remaining, fired, next);
      var removed := next in remaining;
      rest := remaining - {next};
      assert rest.Keys == remaining.Keys - {next};
      if removed {
        mediator.Send(SetParticipantTyping(next.participant, next.channel, false));
      }
      firedNow := fired + [next];
      TypingOffAppend(fired, next);
    }

    /** Arms (participant, channel) to expire timespan after now, replacing any earlier
        deadline of that pair. */
    method RemoveParticipantTypingAfter(participant: Participant, channel: ChatChannel, now: int, timespan: int)
      returns (ghost fired: seq<ParticipantInChannel>)
      requires Valid()
      modifies this, mediator
      ensures Valid() && resumed == old(resumed)
      ensures var armedTimers := old(timers)[ParticipantInChannel(participant, channel) := now + timespan];
              timers == Pending(armedTimers, now)
              && FiredInOrder(armedTimers, now, fired)
              && mediator.log == old(mediator.log) + TypingOff(fired)
    {
      var info := ParticipantInChannel(participant, channel);
      timers := timers[info := now + timespan];
      fired := Reschedule(now);
    }

    /** Removes every entry of the participant and returns the channels they were in. */
    method CancelAllTimersOfParticipant(participant: Participant, now: int)
      returns (channels: set<ChatChannel>, ghost fired: seq<ParticipantInChannel>)
      requires Valid()
      modifies this, mediator
      ensures Valid() && resumed == old(resumed)
      ensures channels == set k | k in OfParticipant(old(timers), participant) :: k.channel
      ensures var rest := old(timers) - OfParticipant(old(timers), participant);
              timers == Pending(rest, now)
              && FiredInOrder(rest, now, fired)
              && mediator.log == old(mediator.log) + TypingOff(fired)
    {
      var participantChannels := OfParticipant(timers, participant);
      timers := timers - participantChannels;
      fired := Reschedule(now);
      channels := set k | k in participantChannels :: k.channel;
    }

    /** Removes one entry; an absent entry is a no-op that does not touch the live wait. */
    method CancelTimer(participant: Participant, channel: ChatChannel, now: int)
      returns (ghost fired: seq<ParticipantInChannel>)
      requires Valid()
      modifies this, mediator
      ensures Valid() && resumed == old(resumed)
      ensures var info := ParticipantInChannel(participant, channel);
              if info in old(timers) then
                var rest := old(timers) - {info};
                timers == Pending(rest, now)
                && FiredInOrder(rest, now, fired)
                && mediator.log == old(mediator.log) + TypingOff(fired)
              else
                timers == old(timers) && armed == old(armed) && mediator.log == old(mediator.log)
    {
      var info := ParticipantInChannel(participant, channel);
      fired := [];
      if info in timers {
        timers := timers - {info};
        fired := Reschedule(now);
      }
    }

    /** Removes every entry of the conference's participants, rescheduling only if some
        entry was removed. */
    method CancelAllTimersOfConference(conferenceId: string, now: int)
      returns (ghost fired: seq<ParticipantInChannel>)
      requires Valid()
      modifies this, mediator
      ensures Valid() && resumed == old(resumed)
      ensures var toRemove := OfConference(old(timers), conferenceId);
              if toRemove != {} then
                var rest := old(timers) - toRemove;
                timers == Pending(rest, now)
                && FiredInOrder(rest, now, fired)
                && mediator.log == old(mediator.log) + TypingOff(fired)
              else
                timers == old(timers) && armed == old(armed) && mediator.log == old(mediator.log)
    {
      var timersToRemove := OfConference(timers, conferenceId);
      timers := timers - timersToRemove;
      fired := [];
      if timersToRemove != {} {
        fired := Reschedule(now);
      }
    }

    /** The live wait elapses at time now (it cannot elapse before its deadline): its loop
        is resumed and the wait is no longer live. */
    method DelayElapsed(now: int)
      requires Valid()
      modifies this
      ensures Valid() && timers == old(timers)
      ensures if old(armed).Some? && old(armed).value.deadline <= now then
                armed == None && resumed == old(resumed) + [old(armed).value.target]
              else
                armed == old(armed) && resumed == old(resumed)
    {
      if armed.Some? && armed.value.deadline <= now {
        resumed := resumed + [armed.value.target];
        armed := None;
      }
    }

    /** The oldest resumed loop takes the lock, removes its target and sends "typing = false"
        only if that removal succeeded (the entry may have been cancelled or fired since
        the wait elapsed); then it loops, cancelling the live wait and re-arming. */
    method Resume(now: int) returns (sentOff: bool, ghost fired: seq<ParticipantInChannel>)
      requires Valid()
      modifies this, mediator
      ensures Valid()
      ensures old(resumed) == [] ==> !sentOff && fired == [] && timers == old(timers)
                                     && mediator.log == old(mediator.log) && resumed == []
      ensures old(resumed) != [] ==>
                var target := old(resumed)[0];
                var rest := old(timers) - {target};
                && sentOff == (target in old(timers))
                && resumed == old(resumed)[1..]
                && timers == Pending(rest, now)
                && FiredInOrder(rest, now, fired)
                && mediator.log == old(mediator.log)
                   + (if sentOff then TypingOff([target]) else []) + TypingOff(fired)
    {
      sentOff, fired := false, [];
      if resumed != [] {
        var target := resumed[0];
        resumed := resumed[1..];
        var removed := target in timers;
        timers := timers - {target};
        if removed {
          mediator.Send(SetParticipantTyping(target.participant, target.channel, false));
          sentOff := true;
        }
        ghost var mid := mediator.log;
        fired := Reschedule(now);
        assert mid == old(mediator.log) + (if sentOff then TypingOff([target]) else []);
      }
    }
  }

  /** Armed at 0 for 100 and cancelled at 99: the callback never fires. */
  method CancelledBeforeDeadlineScenario(p: Participant)
  {
    var info := ParticipantInChannel(p, GlobalChannel);
    var m := new Mediator();
    var t := new ParticipantTypingTimer(m);
    var f := t.RemoveParticipantTypingAfter(p, GlobalChannel, 0, 100);
    NothingDueFiresNothing(map[info := 100], 0, f);
    f := t.CancelTimer(p, GlobalChannel, 99);
    NothingDueFiresNothing(map[], 99, f);
    assert t.timers == map[] && t.armed == None;
    t.DelayElapsed(100);
    var sent, f2 := t.Resume(100);
    assert !sent && m.log == [];
  }

  /** Cancelled after the wait elapsed but before its loop resumed: still no delivery. */
  method CancelledAfterElapseScenario(p: Participant)
  {
    var info := ParticipantInChannel(p, GlobalChannel);
    var m := new Mediator();
    var t := new ParticipantTypingTimer(m);
    var f := t.RemoveParticipantTypingAfter(p, GlobalChannel, 200, 100);
    NothingDueFiresNothing(map[info := 300], 200, f);
    assert t.timers == map[info := 300];
    assert t.armed == Some(Wait(info, 300));
    t.DelayElapsed(300);
    f := t.CancelTimer(p, GlobalChannel, 300);
    NothingDueFiresNothing(map[], 300, f);
    var sent, f2 := t.Resume(300);
    NothingDueFiresNothing(map[], 300, f2);
    assert !sent && m.log == [];
  }

  /** Left alone, an armed entry fires exactly once. */
  method ElapsedFiresOnceScenario(p: Participant)
  {
    var info := ParticipantInChannel(p, GlobalChannel);
    var m := new Mediator();
    var t := new ParticipantTypingTimer(m);
    var f := t.RemoveParticipantTypingAfter(p, GlobalChannel, 400, 100);
    NothingDueFiresNothing(map[info := 500], 400, f);
    assert t.timers == map[info := 500];
    assert t.armed == Some(Wait(info, 500));
    t.DelayElapsed(500);
    var sent, f2 := t.Resume(500);
    NothingDueFiresNothing(map[], 500, f2);
    assert sent && m.log == [SetParticipantTyping(p, GlobalChannel, false)];
    sent, f2 := t.Resume(600);
    assert m.log == [SetParticipantTyping(p, GlobalChannel, false)];
  }
}
