/** What the client derives from the synchronized rooms state: the room of the local
    participant, who else is in that room, and the list of rooms as the room panel shows it,
    ordinary rooms first and then the default room, each group by display name.
    The participant-to-room mapping is a JavaScript object; it is modelled as its entries in
    enumeration order, one entry per participant id. */
module RoomSelectors {
  import opened Common

  datatype Room = Room(roomId: string, displayName: string)

  /** The synchronized rooms state: `participants` holds (participant id, room id) entries. */
  datatype RoomsState = RoomsState(defaultRoomId: string, participants: seq<(string, string)>, rooms: seq<Room>)

  datatype RoomViewModel = RoomViewModel(roomId: string, displayName: string, isDefaultRoom: bool,
                                         participants: seq<string>)

  /** No participant id has two entries, as in a JavaScript object. */
  predicate UniqueIds(entries: seq<(string, string)>)
  {
    forall i, j :: 0 <= i < j < |entries| ==> entries[i].0 != entries[j].0
  }

  /** The room of a participant id in the mapping, if it has one. */
  function Lookup(entries: seq<(string, string)>, id: string): Option<string>
    decreases |entries|
  {
    if entries == [] then None
    else if entries[0].0 == id then Some(entries[0].1)
    else Lookup(entries[1..], id)
  }

  lemma {:induction false} LookupFindsEntry(entries: seq<(string, string)>, id: string)
    requires UniqueIds(entries)
    ensures forall i :: 0 <= i < |entries| && entries[i].0 == id ==> Lookup(entries, id) == Some(entries[i].1)
    ensures Lookup(entries, id).Some? ==> exists i :: 0 <= i < |entries| && entries[i] == (id, Lookup(entries, id).value)
    decreases |entries|
  {
    if entries != [] && entries[0].0 != id {
      LookupFindsEntry(entries[1..], id);
      forall i | 0 <= i < |entries| && entries[i].0 == id
        ensures Lookup(entries, id) == Some(entries[i].1)
      {
        assert entries[1..][i - 1] == entries[i];
      }
      if Lookup(entries, id).Some? {
        var i :| 0 <= i < |entries[1..]| && entries[1..][i] == (id, Lookup(entries, id).value);
        assert entries[i + 1] == (id, Lookup(entries, id).value);
      }
    }
  }

  /** The ids mapped to a room, in entry order; none when there is no room. */
  function IdsInRoom(entries: seq<(string, string)>, room: Option<string>): seq<string>
    decreases |entries|
  {
    if entries == [] then []
    else (if Some(entries[0].1) == room then [entries[0].0] else []) + IdsInRoom(entries[1..], room)
  }

  /** An id is listed for a room exactly when the mapping puts it in that room; an absent
      room lists nobody. */
  lemma {:induction false} IdsInRoomAreTheMappedIds(entries: seq<(string, string)>, room: Option<string>, id: string)
    requires UniqueIds(entries)
    ensures id in IdsInRoom(entries, room) <==> room.Some? && Lookup(entries, id) == room
    decreases |entries|
  {
    if entries != [] {
      IdsInRoomAreTheMappedIds(entries[1..], room, id);
      if entries[0].0 == id {
        LookupFindsEntry(entries[1..], id);
      }
    }
  }

  /** The room of the local participant: none without an own id (an empty id counts as
      none, as any falsy value does), without rooms state, or when the mapping has no entry. */
  function ParticipantRoom(myId: Option<string>, state: Option<RoomsState>): Option<string>
  {
    if myId.None? || myId.value == "" then None
    else if state.None? then None
    else Lookup(state.value.participants, myId.value)
  }

  /** The ids in the local participant's room, in entry order; none without rooms state. */
  function ParticipantsOfCurrentRoom(myId: Option<string>, state: Option<RoomsState>): seq<string>
  {
    if state.None? then [] else IdsInRoom(state.value.participants, ParticipantRoom(myId, state))
  }

  /** Whether another participant is in the local participant's room. */
  predicate IsParticipantInSameRoomAsMe(myId: Option<string>, state: Option<RoomsState>, otherId: string)
  {
    otherId in ParticipantsOfCurrentRoom(myId, state)
  }

  /** Another participant is in the same room exactly when the local participant has a room
      and the mapping puts the other one in it; in particular a participant with a room is in
      its own. */
  lemma SameRoomIffMappedToMyRoom(myId: Option<string>, state: Option<RoomsState>, otherId: string)
    requires state.Some? ==> UniqueIds(state.value.participants)
    ensures IsParticipantInSameRoomAsMe(myId, state, otherId)
            <==> && state.Some?
                 && ParticipantRoom(myId, state).Some?
                 && Lookup(state.value.participants, otherId) == ParticipantRoom(myId, state)
    ensures ParticipantRoom(myId, state).Some? ==> IsParticipantInSameRoomAsMe(myId, state, myId.value)
  {
    if state.Some? {
      IdsInRoomAreTheMappedIds(state.value.participants, ParticipantRoom(myId, state), otherId);
      if ParticipantRoom(myId, state).Some? {
        IdsInRoomAreTheMappedIds(state.value.participants, ParticipantRoom(myId, state), myId.value);
      }
    }
  }

  /** A list of ids without the local participant's; nothing is removed without an own id. */
  function WithoutMe(ids: seq<string>, myId: Option<string>): seq<string>
    decreases |ids|
  {
    if ids == [] then [] else (if Some(ids[0]) == myId then [] else [ids[0]]) + WithoutMe(ids[1..], myId)
  }

  /** Removing the own id drops every occurrence of it and keeps every other id with its
      number of occurrences. */
  lemma {:induction false} WithoutMeRemovesExactlyMe(ids: seq<string>, myId: Option<string>, x: string)
    ensures multiset(WithoutMe(ids, myId))[x] == if Some(x) == myId then 0 else multiset(ids)[x]
    decreases |ids|
  {
    if ids != [] {
      WithoutMeRemovesExactlyMe(ids[1..], myId, x);
      assert ids == [ids[0]] + ids[1..];
    }
  }

  /** Removing the own id keeps the order: it works piece by piece on a concatenation. */
  lemma {:induction false} WithoutMeKeepsOrder(ids: seq<string>, more: seq<string>, myId: Option<string>)
    ensures WithoutMe(ids + more, myId) == WithoutMe(ids, myId) + WithoutMe(more, myId)
    decreases |ids|
  {
    if ids != [] {
      WithoutMeKeepsOrder(ids[1..], more, myId);
      assert (ids + more)[1..] == ids[1..] + more;
    } else {
      assert ids + more == more;
    }
  }

  /** The other participants in the local participant's room. */
  function ParticipantsOfCurrentRoomWithoutMe(myId: Option<string>, state: Option<RoomsState>): seq<string>
  {
    WithoutMe(ParticipantsOfCurrentRoom(myId, state), myId)
  }

  /** The others in my room are exactly the ids mapped to my room other than mine. */
  lemma OthersInMyRoom(myId: Option<string>, state: Option<RoomsState>, otherId: string)
    requires state.Some? ==> UniqueIds(state.value.participants)
    ensures otherId in ParticipantsOfCurrentRoomWithoutMe(myId, state)
            <==> IsParticipantInSameRoomAsMe(myId, state, otherId) && Some(otherId) != myId
  {
    var ids := ParticipantsOfCurrentRoom(myId, state);
    WithoutMeRemovesExactlyMe(ids, myId, otherId);
    assert otherId in WithoutMe(ids, myId) <==> multiset(WithoutMe(ids, myId))[otherId] > 0;
  }

  // Ordering of the room list

  /** Strict lexicographic order of strings by character. */
  predicate StringBefore(a: string, b: string)
    decreases |a|
  {
    if a == [] then b != []
    else if b == [] then false
    else if a[0] != b[0] then a[0] < b[0]
    else StringBefore(a[1..], b[1..])
  }

  /** Two different strings are ordered one way or the other, never both. */
  lemma {:induction false} StringOrderIsStrictTotal(a: string, b: string)
    ensures !(StringBefore(a, b) && StringBefore(b, a))
    ensures a == b || StringBefore(a, b) || StringBefore(b, a)
    ensures !StringBefore(a, a)
    decreases |a|
  {
    if a != [] && b != [] && a[0] == b[0] {
      StringOrderIsStrictTotal(a[1..], b[1..]);
      if a[1..] == b[1..] {
        assert a == [a[0]] + a[1..] && b == [b[0]] + b[1..];
      }
    }
    if a != [] {
      StringOrderIsStrictTotal(a[1..], a[1..]);
    }
  }

  lemma {:induction false} StringOrderIsTransitive(a: string, b: string, c: string)
    requires StringBefore(a, b) && StringBefore(b, c)
    ensures StringBefore(a, c)
    decreases |a|
  {
    if a != [] && a[0] == b[0] && b[0] == c[0] {
      StringOrderIsTransitive(a[1..], b[1..], c[1..]);
    }
  }

  /** The sort key: default room last, then by display name. */
  predicate SortsBefore(x: RoomViewModel, y: RoomViewModel)
  {
    || (!x.isDefaultRoom && y.isDefaultRoom)
    || (x.isDefaultRoom == y.isDefaultRoom && StringBefore(x.displayName, y.displayName))
  }

  predicate SameKey(x: RoomViewModel, y: RoomViewModel)
  {
    x.isDefaultRoom == y.isDefaultRoom && x.displayName == y.displayName
  }

  /** Not sorting before is transitive, and models with the same key never sort before each
      other. */
  lemma NotBeforeIsTransitive(x: RoomViewModel, y: RoomViewModel, z: RoomViewModel)
    requires !SortsBefore(y, x) && !SortsBefore(z, y)
    ensures !SortsBefore(z, x)
  {
    StringOrderIsStrictTotal(x.displayName, y.displayName);
    StringOrderIsStrictTotal(y.displayName, z.displayName);
    StringOrderIsStrictTotal(x.displayName, z.displayName);
    if StringBefore(z.displayName, x.displayName) && z.isDefaultRoom == x.isDefaultRoom {
      if StringBefore(y.displayName, x.displayName) {
      } else if StringBefore(z.displayName, y.displayName) {
      } else {
        if x.displayName != y.displayName {
          StringOrderIsTransitive(z.displayName, x.displayName, y.displayName);
        }
      }
    }
  }

  lemma SameKeyNeverBefore(x: RoomViewModel, y: RoomViewModel)
    ensures SameKey(x, y) ==> !SortsBefore(x, y)
  {
    StringOrderIsStrictTotal(x.displayName, y.displayName);
  }

  predicate Sorted(s: seq<RoomViewModel>)
  {
    forall i, j :: 0 <= i < j < |s| ==> !SortsBefore(s[j], s[i])
  }

  /** Puts a model before the first one that does not sort before it, so it precedes the
      models with the same key. */
  function Insert(x: RoomViewModel, s: seq<RoomViewModel>): seq<RoomViewModel>
    decreases |s|
  {
    if s == [] then [x]
    else if SortsBefore(s[0], x) then [s[0]] + Insert(x, s[1..])
    else [x] + s
  }

  /** The stable sort of the room list by the sort key. */
  function SortRooms(s: seq<RoomViewModel>): seq<RoomViewModel>
    decreases |s|
  {
    if s == [] then [] else Insert(s[0], SortRooms(s[1..]))
  }

  /** The models with a given key, in order. */
  function WithKey(s: seq<RoomViewModel>, key: RoomViewModel): seq<RoomViewModel>
    decreases |s|
  {
    if s == [] then [] else (if SameKey(s[0], key) then [s[0]] else []) + WithKey(s[1..], key)
  }

  /** Inserting adds exactly the inserted model. */
  lemma {:induction false} InsertAddsOne(x: RoomViewModel, s: seq<RoomViewModel>)
    ensures multiset(Insert(x, s)) == multiset(s) + multiset{x}
    decreases |s|
  {
    if s != [] {
      InsertAddsOne(x, s[1..]);
      assert s == [s[0]] + s[1..];
    }
  }

  /** Inserting into a sorted list keeps it sorted. */
  lemma {:induction false} InsertKeepsOrder(x: RoomViewModel, s: seq<RoomViewModel>)
    requires Sorted(s)
    ensures Sorted(Insert(x, s))
    decreases |s|
  {
    if s != [] {
      if SortsBefore(s[0], x) {
        InsertKeepsOrder(x, s[1..]);
        InsertAddsOne(x, s[1..]);
        InsertAfterHead(x, s);
      } else {
        forall j | 0 <= j < |s|
          ensures !SortsBefore(s[j], x)
        {
          if j > 0 {
            NotBeforeIsTransitive(x, s[0], s[j]);
          }
        }
        var r := Insert(x, s);
        assert forall j :: 0 < j < |r| ==> r[j] == s[j - 1];
      }
    }
  }

  /** When the head of a sorted list sorts before the inserted model, nothing inserted
      after the head sorts before it. */
  lemma InsertAfterHead(x: RoomViewModel, s: seq<RoomViewModel>)
    requires Sorted(s) && s != [] && SortsBefore(s[0], x)
    requires Sorted(Insert(x, s[1..]))
    requires multiset(Insert(x, s[1..])) == multiset(s[1..]) + multiset{x}
    ensures Sorted(Insert(x, s))
  {
    var r := Insert(x, s);
    var rest := Insert(x, s[1..]);
    assert r == [s[0]] + rest;
    forall y | y in rest
      ensures !SortsBefore(y, s[0])
    {
      assert y in multiset(rest);
      if y == x {
        StringOrderIsStrictTotal(x.displayName, s[0].displayName);
      } else {
        assert y in s[1..];
        var k :| 0 <= k < |s[1..]| && s[1..][k] == y;
        assert s[k + 1] == y;
      }
    }
    HeadBeforeSorted(s[0], rest);
  }

  /** A sorted list stays sorted with a head that nothing in it sorts before. */
  lemma HeadBeforeSorted(head: RoomViewModel, rest: seq<RoomViewModel>)
    requires Sorted(rest)
    requires forall y | y in rest :: !SortsBefore(y, head)
    ensures Sorted([head] + rest)
  {
    var r := [head] + rest;
    forall i, j | 0 <= i < j < |r|
      ensures !SortsBefore(r[j], r[i])
    {
      assert r[j] == rest[j - 1];
      if i > 0 {
        assert r[i] == rest[i - 1];
      }
    }
  }

  /** Inserting a model puts it first among the models with its key and leaves the others'
      order alone. */
  lemma {:induction false} InsertIsStable(x: RoomViewModel, s: seq<RoomViewModel>, key: RoomViewModel)
    ensures WithKey(Insert(x, s), key) == (if SameKey(x, key) then [x] else []) + WithKey(s, key)
    decreases |s|
  {
    if s != [] && SortsBefore(s[0], x) {
      InsertIsStable(x, s[1..], key);
      SameKeyNeverBefore(s[0], x);
      assert ([s[0]] + Insert(x, s[1..]))[1..] == Insert(x, s[1..]);
    } else if s != [] {
      assert ([x] + s)[1..] == s;
    }
  }

  /** The sorted room list is ordered by the key, holds the same models, and keeps the input
      order among models with equal keys. */
  lemma {:induction false} SortRoomsIsStableSort(s: seq<RoomViewModel>)
    ensures Sorted(SortRooms(s))
    ensures multiset(SortRooms(s)) == multiset(s)
    ensures forall key :: WithKey(SortRooms(s), key) == WithKey(s, key)
    decreases |s|
  {
    if s != [] {
      SortRoomsIsStableSort(s[1..]);
      InsertKeepsOrder(s[0], SortRooms(s[1..]));
      InsertAddsOne(s[0], SortRooms(s[1..]));
      assert s == [s[0]] + s[1..];
      forall key
        ensures WithKey(SortRooms(s), key) == WithKey(s, key)
      {
        InsertIsStable(s[0], SortRooms(s[1..]), key);
      }
    }
  }

  /** The model of one room, before sorting. */
  function ViewModelOf(state: RoomsState, room: Room): RoomViewModel
  {
    RoomViewModel(room.roomId, room.displayName, state.defaultRoomId == room.roomId,
                  IdsInRoom(state.participants, Some(room.roomId)))
  }

  function ViewModels(state: RoomsState): seq<RoomViewModel>
  {
    seq(|state.rooms|, i requires 0 <= i < |state.rooms| => ViewModelOf(state, state.rooms[i]))
  }

  /** The room list of the room panel; none without rooms state. */
  function RoomViewModels(state: Option<RoomsState>): Option<seq<RoomViewModel>>
  {
    if state.None? then None else Some(SortRooms(ViewModels(state.value)))
  }

  /** Without rooms state there is no room list. Otherwise there is one model per room: it is
      marked default exactly for the default room id and lists exactly the ids mapped to that
      room; the list is sorted, ordinary rooms first, then by display name, keeping the order
      of the rooms among equal keys. */
  lemma RoomViewModelsDescribeTheRooms(state: Option<RoomsState>, id: string)
    requires state.Some? ==> UniqueIds(state.value.participants)
    ensures state.None? <==> RoomViewModels(state).None?
    ensures state.Some? ==>
      var models := RoomViewModels(state).value;
      && multiset(models) == multiset(ViewModels(state.value))
      && |models| == |state.value.rooms|
      && Sorted(models)
      && (forall key :: WithKey(models, key) == WithKey(ViewModels(state.value), key))
      && (forall m :: m in models ==>
            && (m.isDefaultRoom <==> m.roomId == state.value.defaultRoomId)
            && (id in m.participants <==> Lookup(state.value.participants, id) == Some(m.roomId)))
  {
    if state.Some? {
      var s := state.value;
      SortRoomsIsStableSort(ViewModels(s));
      var models := RoomViewModels(state).value;
      assert |models| == |multiset(models)| == |multiset(ViewModels(s))| == |ViewModels(s)|;
      forall m | m in models
        ensures && (m.isDefaultRoom <==> m.roomId == s.defaultRoomId)
                && (id in m.participants <==> Lookup(s.participants, id) == Some(m.roomId))
      {
        assert m in multiset(ViewModels(s));
        var i :| 0 <= i < |ViewModels(s)| && ViewModels(s)[i] == m;
        IdsInRoomAreTheMappedIds(s.participants, Some(s.rooms[i].roomId), id);
      }
    }
  }

  /** A default room and two ordinary rooms listed out of order: the ordinary rooms come
      first, by display name, and the default room last. */
  lemma RoomViewModelsExample()
    ensures var state := RoomsState("default", [("p1", "b"), ("p2", "default")],
                                    [Room("default", "Lobby"), Room("b", "Beta"), Room("a", "Alpha")]);
      RoomViewModels(Some(state)) == Some([RoomViewModel("a", "Alpha", false, []),
                                           RoomViewModel("b", "Beta", false, ["p1"]),
                                           RoomViewModel("default", "Lobby", true, ["p2"])])
  {
    var state := RoomsState("default", [("p1", "b"), ("p2", "default")],
                            [Room("default", "Lobby"), Room("b", "Beta"), Room("a", "Alpha")]);
    var a := RoomViewModel("a", "Alpha", false, []);
    var b := RoomViewModel("b", "Beta", false, ["p1"]);
    var d := RoomViewModel("default", "Lobby", true, ["p2"]);
    var entries := state.participants;
    assert entries[1..][1..] == [];
    assert IdsInRoom(entries, Some("a")) == [];
    assert IdsInRoom(entries, Some("b")) == ["p1"];
    assert IdsInRoom(entries, Some("default")) == ["p2"];
    assert ViewModels(state) == [d, b, a];
    SortExample(a, b, d);
  }

  lemma SortExample(a: RoomViewModel, b: RoomViewModel, d: RoomViewModel)
    requires a == RoomViewModel("a", "Alpha", false, [])
    requires b == RoomViewModel("b", "Beta", false, ["p1"])
    requires d == RoomViewModel("default", "Lobby", true, ["p2"])
    ensures SortRooms([d, b, a]) == [a, b, d]
  {
    assert StringBefore("Alpha", "Beta");
    assert [d, b, a][1..] == [b, a] && [b, a][1..] == [a];
    assert SortRooms([a]) == [a];
    assert Insert(b, [a]) == [a, b];
    assert SortRooms([b, a]) == [a, b];
    assert SortsBefore(a, d) && SortsBefore(b, d);
    assert Insert(d, [b]) == [b, d];
    assert Insert(d, [a, b]) == [a, b, d];
  }
}
