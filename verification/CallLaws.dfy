/** When each call event takes effect and what it then leaves: who may do what to which call,
    written out over the tables before the event. */
module CallLaws {
  import opened Common
  import opened CallFsm
  import opened Calls

  // ── what an event is to a participant ────────────────────────────────────

  /** The call is open and this participant's row says so. */
  predicate OpenWith(calls: Table, world: Id, id: Id, c: Id, state: PartState) {
    id in calls && calls[id].world == world && !calls[id].state.Ended? && c in calls[id].parts && calls[id].parts[c].state == state
  }
  /** Somebody who is being rung picks up. */
  predicate PicksUp(calls: Table, e: Event, id: Id, c: Id) {
    e.Transit? && e.action.Accept? && e.id == id && e.actor == c && OpenWith(calls, e.world, id, c, PartState.Ringing)
  }
  /** Somebody who is being rung refuses. */
  predicate Refuses(calls: Table, e: Event, id: Id, c: Id) {
    e.Transit? && e.action.Decline? && e.id == id && e.actor == c && OpenWith(calls, e.world, id, c, PartState.Ringing)
  }
  /** Somebody who is in hangs up, or leaves the room by command, or their media left. */
  predicate Departs(calls: Table, e: Event, id: Id, c: Id) {
    || (e.Transit? && e.action.Hangup? && e.id == id && e.actor == c && OpenWith(calls, e.world, id, c, Joined))
    || (e.GroupLeave? && e.id == id && e.actor == c
        && id in calls && calls[id].world == e.world && calls[id].topology.Sfu? && c in calls[id].parts)
    || (e.WebhookParticipant? && !e.joined && e.id == id && e.actor == c
        && id in calls && calls[id].topology.Sfu? && c in calls[id].parts)
  }
  /** Somebody enters the room, by a join it has room for or by a webhook. */
  predicate Enters(calls: Table, e: Event, id: Id, c: Id) {
    && id in calls && calls[id].topology.Sfu?
    && ((e.GroupJoin? && e.id == id && e.actor == c && calls[id].world == e.world && !calls[id].state.Ended?
         && |set d | d in calls[id].parts && calls[id].parts[d].state.Joined? && d != c| < e.cap)
        || (e.WebhookParticipant? && e.joined && e.id == id && e.actor == c))
  }

  /** The first join is stamped, a later one keeps the stamp. */
  function FirstStamp(call: Call, c: Id, now: int): Option<int> {
    if c in call.parts && call.parts[c].joinedAt.Some? then call.parts[c].joinedAt else Some(now)
  }
  /** A participant row after an event. */
  function PartAfter(calls: Table, e: Event, id: Id, c: Id): Option<Part>
    requires id in calls
  {
    if PicksUp(calls, e, id, c) || Enters(calls, e, id, c) then Some(Part(Joined, FirstStamp(calls[id], c, e.now)))
    else if c !in calls[id].parts then None
    else if Refuses(calls, e, id, c) then Some(Part(Declined, calls[id].parts[c].joinedAt))
    else if Departs(calls, e, id, c) then Some(Part(Left, calls[id].parts[c].joinedAt))
    else Some(calls[id].parts[c])
  }

  /** Every participant row after every event. */
  lemma PartsAfter(calls: Table, e: Event, id: Id, c: Id)
    requires id in calls
    ensures id in Step(calls, e)
    ensures (if c in Step(calls, e)[id].parts then Some(Step(calls, e)[id].parts[c]) else None) == PartAfter(calls, e, id, c)
  {
    match e
    case Transit(w, i, actor, action, now) => TransitParts(calls, e, id, c);
    case GroupJoin(w, i, actor, cap, now) => JoinParts(calls, e, id, c);
    case GroupLeave(w, i, actor) =>
    case WebhookParticipant(i, actor, joined, now) =>
    case Start(_, _, _, _, _) =>
    case GroupCreate(_, _, _, _, _) =>
    case GroupEnd(_, _, _) =>
    case WebhookFinished(_) =>
    case ReapZombieRings(_, _) =>
    case EndActiveOrphans(_, _) =>
    case ReapEmptyRooms(_, _, _) =>
  }

  lemma TransitParts(calls: Table, e: Event, id: Id, c: Id)
    requires id in calls && e.Transit?
    ensures id in Step(calls, e)
    ensures (if c in Step(calls, e)[id].parts then Some(Step(calls, e)[id].parts[c]) else None) == PartAfter(calls, e, id, c)
  {
  }

  lemma JoinParts(calls: Table, e: Event, id: Id, c: Id)
    requires id in calls && e.GroupJoin?
    ensures id in Step(calls, e)
    ensures (if c in Step(calls, e)[id].parts then Some(Step(calls, e)[id].parts[c]) else None) == PartAfter(calls, e, id, c)
  {
    assert Others(calls[id], e.actor)
        == set d | d in calls[id].parts && calls[id].parts[d].state.Joined? && d != e.actor;
  }

  // ── what an event is to a call ───────────────────────────────────────────

  /** Nobody but `c` is in. */
  predicate Alone(call: Call, c: Id) { forall d :: d in call.parts && call.parts[d].state.Joined? ==> d == c }

  /** The event ends the call: the last one leaves, the creator or the media server ends the
      room, a ring nobody answered for a minute, a call whose room the media server lost. */
  predicate Ends(calls: Table, e: Event, id: Id) {
    && id in calls
    && match e
       case Transit(_, _, actor, _, _) => Departs(calls, e, id, actor) && Alone(calls[id], actor)
       case GroupLeave(_, _, actor) => Departs(calls, e, id, actor) && Alone(calls[id], actor)
       case WebhookParticipant(_, actor, _, _) => Departs(calls, e, id, actor) && Alone(calls[id], actor)
       case GroupEnd(world, i, actor) =>
         i == id && calls[id].world == world && calls[id].topology.Sfu? && IsCreator(calls[id], actor)
       case WebhookFinished(i) => i == id && calls[id].topology.Sfu?
       case ReapZombieRings(world, now) =>
         calls[id].world == world && calls[id].state.Ringing? && calls[id].createdAt < now - 60_000_000
       case EndActiveOrphans(world, ids) => calls[id].world == world && calls[id].state.Active? && id in ids
       case _ => false
  }
  predicate Connects(calls: Table, e: Event, id: Id) { e.Transit? && PicksUp(calls, e, id, e.actor) }

  /** Every session row after every event, in any reachable state: an accept makes the call
      active, the ending events end it, and nothing else changes it. */
  lemma SessionAfter(calls: Table, e: Event, id: Id)
    requires Holds(calls) && id in calls
    ensures id in Step(calls, e)
    ensures var call' := Step(calls, e)[id];
            && call' == calls[id].(state := call'.state, parts := call'.parts)
            && call'.state == if Ends(calls, e, id) then Ended else if Connects(calls, e, id) then Active else calls[id].state
  {
    assert CallHolds(calls[id]);
    match e
    case Transit(w, i, actor, action, now) => TransitSession(calls, e, id);
    case GroupLeave(w, i, actor) => DepartedSession(calls[id], actor);
    case WebhookParticipant(i, actor, joined, now) => DepartedSession(calls[id], actor);
    case Start(_, _, _, _, _) =>
    case GroupJoin(_, _, _, _, _) =>
    case GroupCreate(_, _, _, _, _) =>
    case GroupEnd(_, _, _) =>
    case WebhookFinished(_) =>
    case ReapZombieRings(_, _) =>
    case EndActiveOrphans(_, _) =>
    case ReapEmptyRooms(_, _, _) =>
  }

  lemma TransitSession(calls: Table, e: Event, id: Id)
    requires Holds(calls) && id in calls && e.Transit?
    ensures id in Step(calls, e)
    ensures var call' := Step(calls, e)[id];
            && call' == calls[id].(state := call'.state, parts := call'.parts)
            && call'.state == if Ends(calls, e, id) then Ended else if Connects(calls, e, id) then Active else calls[id].state
  {
    assert CallHolds(calls[id]);
    OthersAreJoined(calls[id], e.actor);
    if Refuses(calls, e, id, e.actor) {
      var c :| c in calls[id].parts && IsIn(calls[id], c);
      assert c != e.actor;
    }
  }

  lemma OthersAreJoined(call: Call, actor: Id)
    ensures Joined in OthersOf(call.parts, actor) <==> !Alone(call, actor)
  {
    if !Alone(call, actor) {
      var d :| d in call.parts && call.parts[d].state.Joined? && d != actor;
      assert call.parts[d].state in OthersOf(call.parts, actor);
    }
  }

  lemma DepartedSession(call: Call, actor: Id)
    requires CallHolds(call)
    ensures var call' := Departed(call, actor);
            && call' == call.(state := call'.state, parts := call'.parts)
            && call'.state == if actor in call.parts && Alone(call, actor) then Ended else call.state
  {
    if actor in call.parts {
      var left := call.(parts := call.parts[actor := call.parts[actor].(state := Left)]);
      if !Alone(call, actor) {
        var d :| d in call.parts && call.parts[d].state.Joined? && d != actor;
        assert IsIn(left, d);
      }
    } else {
      assert !call.state.Ended? ==> Occupied(call);
    }
  }

  // ── main results: picking up ─────────────────────────────────────────────

  /** In every reachable state an accept succeeds if and only if the call is the world's and
      not ended, and the actor is a participant it is ringing; it then connects: the call is
      active, the actor in with the stamp of the first join, every other participant as before. */
  lemma AcceptConnectsIff(events: seq<Event>, world: Id, id: Id, actor: Id, now: int)
    ensures var calls := Run(events);
            var (calls', r) := DoTransit(calls, world, id, actor, Accept, now);
            && (r.Ok? <==> OpenWith(calls, world, id, actor, PartState.Ringing))
            && (r.Ok? ==>
                  && id in calls' && r.value == calls'[id] && calls' == calls[id := calls'[id]]
                  && calls'[id].state.Active?
                  && calls'[id].parts == calls[id].parts[actor := Part(Joined, FirstStamp(calls[id], actor, now))])
            && (!r.Ok? ==> calls' == calls)
  {
    var calls := Run(events);
    var e := Transit(world, id, actor, Accept, now);
    RunHolds(events);
    if id in calls {
      SessionAfter(calls, e, id);
      PartsAfter(calls, e, id, actor);
    }
  }

  /** A decline succeeds under the same guards and leaves the call as it was but for the
      actor's row. */
  lemma DeclineRefusesIff(events: seq<Event>, world: Id, id: Id, actor: Id, now: int)
    ensures var calls := Run(events);
            var (calls', r) := DoTransit(calls, world, id, actor, Decline, now);
            && (r.Ok? <==> OpenWith(calls, world, id, actor, PartState.Ringing))
            && (r.Ok? ==>
                  && r.value == calls[id].(parts := calls[id].parts[actor := calls[id].parts[actor].(state := Declined)])
                  && calls' == calls[id := r.value])
            && (!r.Ok? ==> calls' == calls)
  {
    var calls := Run(events);
    var e := Transit(world, id, actor, Decline, now);
    RunHolds(events);
    if id in calls {
      SessionAfter(calls, e, id);
      PartsAfter(calls, e, id, actor);
    }
  }

  /** A hangup succeeds for those who are in, and ends the call for the last of them. */
  lemma HangupLeavesIff(events: seq<Event>, world: Id, id: Id, actor: Id, now: int)
    ensures var calls := Run(events);
            var (calls', r) := DoTransit(calls, world, id, actor, Hangup, now);
            && (r.Ok? <==> OpenWith(calls, world, id, actor, Joined))
            && (r.Ok? ==>
                  && r.value == calls[id].(state := if Alone(calls[id], actor) then Ended else calls[id].state,
                                           parts := calls[id].parts[actor := calls[id].parts[actor].(state := Left)])
                  && calls' == calls[id := r.value])
            && (!r.Ok? ==> calls' == calls)
  {
    var calls := Run(events);
    var e := Transit(world, id, actor, Hangup, now);
    RunHolds(events);
    if id in calls {
      SessionAfter(calls, e, id);
      PartsAfter(calls, e, id, actor);
    }
  }

  /** What the three transitions answer when they do not succeed. */
  lemma TransitAnswers(calls: Table, world: Id, id: Id, actor: Id, action: Action, now: int)
    ensures var r := DoTransit(calls, world, id, actor, action, now).1;
            var seen := id in calls && calls[id].world == world;
            && (r == Err(NotFound) <==> !seen)
            && (r == Err(Forbidden) <==> seen && actor !in calls[id].parts)
            && (r == Err(Conflict) <==>
                  seen && actor in calls[id].parts
                  && (calls[id].state.Ended?
                      || calls[id].parts[actor].state != if action.Hangup? then Joined else PartState.Ringing))
  {
  }

  // ── main results: new calls ──────────────────────────────────────────────

  /** The character is being rung or is in some open call of the world. */
  predicate Engaged(calls: Table, world: Id, c: Id) {
    exists id :: id in calls && (OpenWith(calls, world, id, c, PartState.Ringing) || OpenWith(calls, world, id, c, Joined))
  }
  /** Somebody else is called who is free. */
  predicate Rings(calls: Table, e: Event) {
    e.Start? && e.id !in calls && e.callee.Some? && e.callee.value != e.caller && !Engaged(calls, e.world, e.callee.value)
  }
  /** A room is opened while the world has fewer active rooms than it may have. */
  predicate OpensRoom(calls: Table, e: Event) {
    e.GroupCreate? && e.id !in calls && |ActiveRooms(calls, e.world)| < e.maxRooms
  }
  function ActiveRooms(calls: Table, world: Id): set<Id> {
    set id | id in calls && calls[id].world == world && calls[id].topology.Sfu? && calls[id].state.Active?
  }
  function NewCall(e: Event): Call
    requires e.Start? || e.GroupCreate?
  {
    if e.GroupCreate? then Call(e.world, Active, Sfu, e.now, map[e.caller := Part(Joined, Some(e.now))])
    else
      var ringing := if e.callee.Some? then map[e.callee.value := Part(PartState.Ringing, None)] else map[];
      Call(e.world, SessionState.Ringing, P2p, e.now, map[e.caller := Part(Joined, Some(e.now))] + ringing)
  }

  lemma EngagedIsBusy(calls: Table, world: Id, c: Id)
    ensures Engaged(calls, world, c) <==> Calls.Busy(calls, world, c)
  {
    if Engaged(calls, world, c) {
      var id :| id in calls && (OpenWith(calls, world, id, c, PartState.Ringing) || OpenWith(calls, world, id, c, Joined));
      assert Occupies(calls[id], world, c);
    }
    if Calls.Busy(calls, world, c) {
      var id :| id in calls && Occupies(calls[id], world, c);
      assert OpenWith(calls, world, id, c, PartState.Ringing) || OpenWith(calls, world, id, c, Joined);
    }
  }

  /** A call appears if and only if somebody free is rung or a room is opened under the cap,
      with the caller in and the callee rung; nothing removes one. */
  lemma CallAppearsIff(calls: Table, e: Event, id: Id)
    ensures id in Step(calls, e) <==> id in calls || ((Rings(calls, e) || OpensRoom(calls, e)) && e.id == id)
    ensures id !in calls && id in Step(calls, e) ==> Step(calls, e)[id] == NewCall(e)
  {
    if e.Start? && e.callee.Some? {
      EngagedIsBusy(calls, e.world, e.callee.value);
    }
    if e.GroupCreate? {
      var rooms := RoomsIn(calls, e.world);
      forall i ensures i in rooms <==> i in ActiveRooms(calls, e.world) {
      }
      assert rooms == ActiveRooms(calls, e.world);
    }
  }

  /** What a call to a number answers. */
  lemma StartAnswers(calls: Table, world: Id, caller: Id, callee: Option<Id>, id: Id, now: int)
    ensures var e := Start(world, caller, callee, id, now);
            var (calls', r) := DoStart(calls, world, caller, callee, id, now);
            && (r.Ok? <==> Rings(calls, e)) && (r.Ok? ==> r.value == NewCall(e) && calls' == calls[id := NewCall(e)])
            && (r == Err(NotFound) <==> callee.None?)
            && (r == Err(Invalid) <==> callee == Some(caller))
            && (r == Err(Conflict) <==> callee.Some? && callee.value != caller && Engaged(calls, world, callee.value))
  {
    if callee.Some? {
      EngagedIsBusy(calls, world, callee.value);
    }
  }

  /** What opening a room answers. */
  lemma GroupCreateAnswers(calls: Table, world: Id, creator: Id, id: Id, maxRooms: int, now: int)
    ensures var e := GroupCreate(world, creator, id, maxRooms, now);
            var r := DoGroupCreate(calls, world, creator, id, maxRooms, now).1;
            && (r == Ok(NewCall(e)) <==> OpensRoom(calls, e))
            && (r == Err(Conflict) <==> |ActiveRooms(calls, world)| >= maxRooms)
  {
    var rooms := RoomsIn(calls, world);
    forall i ensures i in rooms <==> i in ActiveRooms(calls, world) {
    }
    assert rooms == ActiveRooms(calls, world);
  }

  /** From a ring to a conversation: whoever is free can be called, and when they pick up
      both are in one active call. */
  lemma CallThenAcceptConnects(events: seq<Event>, world: Id, caller: Id, callee: Id, id: Id, now: int, later: int)
    requires id !in Run(events) && caller != callee && !Engaged(Run(events), world, callee)
    ensures var calls := Run(events + [Start(world, caller, Some(callee), id, now), Transit(world, id, callee, Accept, later)]);
            && id in calls && calls[id].state.Active? && calls[id].topology.P2p? && calls[id].world == world
            && calls[id].parts == map[caller := Part(Joined, Some(now)), callee := Part(Joined, Some(later))]
  {
    var start, accept := Start(world, caller, Some(callee), id, now), Transit(world, id, callee, Accept, later);
    assert (events + [start])[..|events|] == events;
    assert (events + [start, accept])[..|events| + 1] == events + [start];
    CallAppearsIff(Run(events), start, id);
    AcceptConnectsIff(events + [start], world, id, callee, later);
  }

  // ── main results: rooms ──────────────────────────────────────────────────

  /** What the room commands answer: a join succeeds for an open room with a seat free, a
      leave for anybody with a row, an end for the creator. */
  lemma RoomAnswers(calls: Table, world: Id, id: Id, c: Id, cap: int, now: int)
    ensures var seen := id in calls && calls[id].world == world && calls[id].topology.Sfu?;
            var join, leave, end :=
              DoGroupJoin(calls, world, id, c, cap, now), DoGroupLeave(calls, world, id, c), DoGroupEnd(calls, world, id, c);
            && (join.1.Ok? <==> seen && Enters(calls, GroupJoin(world, id, c, cap, now), id, c))
            && (leave.1.Ok? <==> Departs(calls, GroupLeave(world, id, c), id, c))
            && (end.1.Ok? <==> seen && IsCreator(calls[id], c))
            && (join.1 == Err(NotFound) <==> !seen) && (leave.1 == Err(NotFound) <==> !seen) && (end.1 == Err(NotFound) <==> !seen)
            && (join.1.Ok? ==> id in join.0 && join.1.value == join.0[id] && join.1.value.parts[c].state.Joined?)
            && (leave.1.Ok? ==> id in leave.0 && leave.1.value == leave.0[id] && leave.1.value.parts[c].state.Left?)
            && (end.1.Ok? ==> id in end.0 && end.1.value == end.0[id] && end.1.value.state.Ended?)
  {
    if id in calls {
      JoinParts(calls, GroupJoin(world, id, c, cap, now), id, c);
      assert Others(calls[id], c) == set d | d in calls[id].parts && calls[id].parts[d].state.Joined? && d != c;
    }
  }
}
