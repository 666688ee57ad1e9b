/** The call tables as the store runs them, each method one transaction. */
module CallStore {
  import opened Common
  import opened CallFsm
  import opened Calls
  import Query

  function JoinedBesides(c: Id): (Id, Part) -> bool {
    (d: Id, p: Part) => p.state.Joined? && d != c
  }

  class Store {
    var calls: Table

    ghost predicate Valid()
      reads this
    {
      Holds(calls)
    }

    constructor ()
      ensures Valid() && calls == map[]
    {
      calls := map[];
    }

    method InsertCall(id: Id, call: Call) returns (r: Result<Call>)
      modifies this
      ensures (calls, r) == Insert(old(calls), id, call)
    {
      if id in calls {
        return Err(DuplicateKey);
      }
      calls := calls[id := call];
      return Ok(call);
    }

    method Start(world: Id, caller: Id, callee: Option<Id>, id: Id, now: int) returns (r: Result<Call>)
      requires Valid()
      modifies this
      ensures Valid()
      ensures (calls, r) == DoStart(old(calls), world, caller, callee, id, now)
    {
      StepKeepsHolds(calls, Event.Start(world, caller, callee, id, now));
      if callee.None? { return Err(NotFound); }
      if callee.value == caller { return Err(Invalid); }
      var busy := Query.Find(calls, (call: Call) => Occupies(call, world, callee.value));
      assert busy.Some? ==> exists open :: open == busy.value && open in calls && Occupies(calls[open], world, callee.value);
      if busy.Some? { return Err(Conflict); }
      r := InsertCall(id, Call(world, SessionState.Ringing, P2p, now,
        map[caller := Part(Joined, Some(now)), callee.value := Part(PartState.Ringing, None)]));
    }

    /** The states of everybody but the actor. */
    method StatesOfOthers(parts: map<Id, Part>, actor: Id) returns (others: set<PartState>)
      ensures others == OthersOf(parts, actor)
    {
      others := {};
      var todo := parts.Keys - {actor};
      while todo != {}
        invariant todo <= parts.Keys - {actor}
        invariant others == set c | c in parts && c != actor && c !in todo :: parts[c].state
        decreases |todo|
      {
        EmptyIfNoMember(todo);
        var c :| c in todo;
        others := others + {parts[c].state};
        todo := todo - {c};
      }
    }

    /** `accept`, `decline` and `hangup`. */
    method Transit(world: Id, id: Id, actor: Id, action: Action, now: int) returns (r: Result<Call>)
      requires Valid()
      modifies this
      ensures Valid()
      ensures (calls, r) == DoTransit(old(calls), world, id, actor, action, now)
    {
      StepKeepsHolds(calls, Event.Transit(world, id, actor, action, now));
      if !Visible(calls, world, id) { return Err(NotFound); }
      var call := calls[id];
      if actor !in call.parts { return Err(Forbidden); }
      var others := StatesOfOthers(call.parts, actor);
      var t := Apply(call.state, call.parts[actor].state, others, action);
      if t.None? { return Err(Conflict); }
      call := call.(parts := call.parts[actor := Stamped(call.parts[actor], t.value.participant, now)]);
      if t.value.session != call.state {
        call := call.(state := t.value.session);
      }
      calls := calls[id := call];
      return Ok(call);
    }

    method GroupCreate(world: Id, creator: Id, id: Id, maxRooms: int, now: int) returns (r: Result<Call>)
      requires Valid()
      modifies this
      ensures Valid()
      ensures (calls, r) == DoGroupCreate(old(calls), world, creator, id, maxRooms, now)
    {
      StepKeepsHolds(calls, Event.GroupCreate(world, creator, id, maxRooms, now));
      var rooms := Query.Count(calls, RoomOf(world));
      assert Query.Matching(calls, RoomOf(world)) == RoomsIn(calls, world);
      if rooms >= maxRooms { return Err(Conflict); }
      r := InsertCall(id, Call(world, Active, Sfu, now, map[creator := Part(Joined, Some(now))]));
    }

    method GroupJoin(world: Id, id: Id, c: Id, cap: int, now: int) returns (r: Result<Call>)
      requires Valid()
      modifies this
      ensures Valid()
      ensures (calls, r) == DoGroupJoin(old(calls), world, id, c, cap, now)
    {
      StepKeepsHolds(calls, Event.GroupJoin(world, id, c, cap, now));
      if !VisibleRoom(calls, world, id) { return Err(NotFound); }
      var others := Query.Count(calls[id].parts, JoinedBesides(c));
      assert Query.Matching(calls[id].parts, JoinedBesides(c)) == Others(calls[id], c);
      var admits := JoinAdmits(calls[id].state, others, cap);
      if admits.Err? { return Err(admits.fail); }
      var call := calls[id];
      var row := if c in call.parts then call.parts[c] else Part(Joined, None);
      call := call.(parts := call.parts[c := Stamped(row, Joined, now)]);
      calls := calls[id := call];
      return Ok(call);
    }

    /** `end_if_empty`: the session ends unless a participant row still says joined. */
    method EndedIfEmpty(call: Call) returns (r: Call)
      ensures r == EndIfEmpty(call)
    {
      var someone := Query.Find(call.parts, (p: Part) => p.state.Joined?);
      if someone.None? {
        return call.(state := Ended);
      }
      assert IsIn(call, someone.value);
      return call;
    }

    method GroupLeave(world: Id, id: Id, c: Id) returns (r: Result<Call>)
      requires Valid()
      modifies this
      ensures Valid()
      ensures (calls, r) == DoGroupLeave(old(calls), world, id, c)
    {
      StepKeepsHolds(calls, Event.GroupLeave(world, id, c));
      if !VisibleRoom(calls, world, id) { return Err(NotFound); }
      var call := calls[id];
      if c !in call.parts { return Err(Forbidden); }
      call := EndedIfEmpty(call.(parts := call.parts[c := call.parts[c].(state := Left)]));
      calls := calls[id := call];
      return Ok(call);
    }

    /** `ORDER BY joined_at, character_id LIMIT 1` over the stamped rows. */
    method EarliestJoiner(call: Call) returns (first: Option<Id>)
      ensures forall c :: IsCreator(call, c) <==> first == Some(c)
    {
      first := None;
      var todo := call.parts.Keys;
      while todo != {}
        invariant todo <= call.parts.Keys
        invariant first.Some? ==> first.value in call.parts && call.parts[first.value].joinedAt.Some?
        invariant forall d :: d in call.parts && d !in todo && call.parts[d].joinedAt.Some? ==>
                    first.Some? && JoinedFirst(call, first.value, d)
        decreases |todo|
      {
        EmptyIfNoMember(todo);
        var c :| c in todo;
        if call.parts[c].joinedAt.Some? && (first.None? || JoinedFirst(call, c, first.value)) {
          first := Some(c);
        }
        todo := todo - {c};
      }
      forall c ensures IsCreator(call, c) <==> first == Some(c) {
        if IsCreator(call, c) {
          assert JoinedFirst(call, c, first.value) && JoinedFirst(call, first.value, c);
        }
      }
    }

    method GroupEnd(world: Id, id: Id, c: Id) returns (r: Result<Call>)
      requires Valid()
      modifies this
      ensures Valid()
      ensures (calls, r) == DoGroupEnd(old(calls), world, id, c)
    {
      StepKeepsHolds(calls, Event.GroupEnd(world, id, c));
      if !VisibleRoom(calls, world, id) { return Err(NotFound); }
      var creator := EarliestJoiner(calls[id]);
      if creator != Some(c) { return Err(Forbidden); }
      var call := calls[id];
      if call.state != Ended {
        call := call.(state := Ended);
      }
      calls := calls[id := call];
      return Ok(call);
    }

    method WebhookParticipant(id: Id, c: Id, joined: bool, now: int)
      requires Valid()
      modifies this
      ensures Valid()
      ensures calls == DoWebhookParticipant(old(calls), id, c, joined, now)
    {
      StepKeepsHolds(calls, Event.WebhookParticipant(id, c, joined, now));
      if id !in calls || !calls[id].topology.Sfu? {
        return;
      }
      if joined {
        var row := if c in calls[id].parts then calls[id].parts[c] else Part(Joined, None);
        calls := calls[id := calls[id].(parts := calls[id].parts[c := Stamped(row, Joined, now)])];
      } else {
        var call := calls[id];
        if c in call.parts {
          call := call.(parts := call.parts[c := call.parts[c].(state := Left)]);
        }
        call := EndedIfEmpty(call);
        calls := calls[id := call];
      }
    }

    method WebhookFinished(id: Id)
      requires Valid()
      modifies this
      ensures Valid()
      ensures calls == DoWebhookFinished(old(calls), id)
    {
      StepKeepsHolds(calls, Event.WebhookFinished(id));
      if id in calls && calls[id].topology.Sfu? && calls[id].state != Ended {
        calls := calls[id := calls[id].(state := Ended)];
      }
    }

    /** The reaps' `UPDATE`, row by row; `ended` are the ids it returns. */
    method EndChosen(chosen: (Id, Call) -> bool) returns (ended: set<Id>)
      modifies this
      ensures calls == EndWhere(old(calls), chosen)
      ensures ended == set id | id in old(calls) && chosen(id, old(calls)[id])
    {
      ghost var before := calls;
      ended := set id | id in calls && chosen(id, calls[id]);
      var todo := ended;
      while todo != {}
        invariant calls.Keys == before.Keys && todo <= ended
        invariant forall id :: id in calls ==> calls[id] == if id in ended && id !in todo then EndedCall(before[id]) else before[id]
        decreases |todo|
      {
        EmptyIfNoMember(todo);
        var id :| id in todo;
        calls := calls[id := calls[id].(state := Ended)];
        todo := todo - {id};
      }
      forall id | id in calls ensures calls[id] == EndWhere(before, chosen)[id] {}
      assert calls == EndWhere(before, chosen);
    }

    method ReapZombieRings(world: Id, now: int) returns (ended: set<Id>)
      requires Valid()
      modifies this
      ensures Valid()
      ensures calls == EndWhere(old(calls), ZombieRing(world, now))
      ensures ended == set id | id in old(calls) && ZombieRing(world, now)(id, old(calls)[id])
    {
      StepKeepsHolds(calls, Event.ReapZombieRings(world, now));
      ended := EndChosen(ZombieRing(world, now));
    }

    method EndActiveOrphans(world: Id, ids: set<Id>) returns (ended: set<Id>)
      requires Valid()
      modifies this
      ensures Valid()
      ensures calls == EndWhere(old(calls), Orphan(world, ids))
      ensures ended <= ids && ended == set id | id in old(calls) && Orphan(world, ids)(id, old(calls)[id])
    {
      StepKeepsHolds(calls, Event.EndActiveOrphans(world, ids));
      ended := EndChosen(Orphan(world, ids));
    }

    /** The empty-room reap: always a no-op. */
    method ReapEmptyRooms(world: Id, now: int, age: int) returns (ended: set<Id>)
      requires Valid()
      modifies this
      ensures Valid()
      ensures calls == old(calls) && ended == {}
    {
      assert forall id :: id in calls ==> CallHolds(calls[id]);
      ended := EndChosen(EmptyRoom(world, now, age));
      assert calls == old(calls);
    }
  }
}
