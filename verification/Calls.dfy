/** The call transition table, and what one call's rows go through. */
module CallFsm {
  import opened Common

  datatype SessionState = Ringing | Active | Ended
  datatype PartState = Ringing | Joined | Declined | Left
  datatype Action = Accept | Decline | Hangup

  datatype Transition = Transition(participant: PartState, session: SessionState)

  /** The states of the other participants are only ever asked which of them occur,
      so a set of states stands for the slice. */
  function Apply(session: SessionState, actor: PartState, others: set<PartState>, action: Action): Option<Transition> {
    if session.Ended? then None
    else match action
      case Accept =>
        if actor != PartState.Ringing then None else Some(Transition(Joined, Active))
      case Decline =>
        if actor != PartState.Ringing then None
        else Some(Transition(Declined, if PartState.Ringing in others || Joined in others then session else Ended))
      case Hangup =>
        if actor != Joined then None else Some(Transition(Left, if Joined in others then session else Ended))
  }

  function Rank(s: SessionState): nat {
    match s case Ringing => 0 case Active => 1 case Ended => 2
  }
}

/** Calls and their participants under every operation that touches them: the one-to-one
    transitions, the group operations, the webhooks and the janitor's reaps. */
module Calls {
  import opened Common
  import opened CallFsm

  type Id = int

  datatype Topology = P2p | Sfu
  datatype Part = Part(state: PartState, joinedAt: Option<int>)
  /** A session row with its participant rows. */
  datatype Call = Call(world: Id, state: SessionState, topology: Topology, createdAt: int, parts: map<Id, Part>)
  type Table = map<Id, Call>

  /** The zombie-ring and orphan age, in microseconds. */
  const RING_TIMEOUT: int := 60_000_000

  // ── one call ─────────────────────────────────────────────────────────────

  predicate IsIn(call: Call, c: Id) { c in call.parts && call.parts[c].state.Joined? }
  predicate Occupied(call: Call) { exists c :: c in call.parts && IsIn(call, c) }

  function OthersOf(parts: map<Id, Part>, actor: Id): set<PartState> {
    set c | c in parts && c != actor :: parts[c].state
  }

  /** The first entry to `joined` is stamped, later ones keep the stamp. */
  function Stamped(p: Part, state: PartState, now: int): Part {
    Part(state, if state.Joined? && p.joinedAt.None? then Some(now) else p.joinedAt)
  }

  function Transitioned(call: Call, actor: Id, action: Action, now: int): Result<Call> {
    if actor !in call.parts then Err(Forbidden)
    else
      match Apply(call.state, call.parts[actor].state, OthersOf(call.parts, actor), action)
      case None => Err(Conflict)
      case Some(t) => Ok(call.(state := t.session, parts := call.parts[actor := Stamped(call.parts[actor], t.participant, now)]))
  }

  function Admitted(call: Call, c: Id, now: int): Call {
    var row := if c in call.parts then call.parts[c] else Part(Joined, None);
    call.(parts := call.parts[c := Stamped(row, Joined, now)])
  }

  function EndedCall(call: Call): Call { call.(state := Ended) }

  function EndIfEmpty(call: Call): Call {
    if Occupied(call) then call else EndedCall(call)
  }

  function Departed(call: Call, c: Id): Call {
    EndIfEmpty(if c in call.parts then call.(parts := call.parts[c := call.parts[c].(state := Left)]) else call)
  }

  /** Joined before, the character id breaking ties. */
  predicate JoinedFirst(call: Call, c: Id, d: Id)
    requires c in call.parts && d in call.parts
  {
    var (tc, td) := (call.parts[c].joinedAt, call.parts[d].joinedAt);
    tc.Some? && td.Some? && (tc.value < td.value || (tc.value == td.value && c <= d))
  }
  /** The earliest joiner, which is how `group_end` knows the creator. */
  predicate IsCreator(call: Call, c: Id) {
    c in call.parts && call.parts[c].joinedAt.Some? &&
    forall d :: d in call.parts && call.parts[d].joinedAt.Some? ==> JoinedFirst(call, c, d)
  }

  function JoinAdmits(state: SessionState, othersJoined: int, cap: int): Result<()> {
    if state.Ended? then Err(Conflict) else if othersJoined >= cap then Err(Conflict) else Ok(())
  }
  function RoomsAdmit(activeRooms: int, cap: int): Result<()> {
    if activeRooms >= cap then Err(Conflict) else Ok(())
  }

  function Others(call: Call, c: Id): set<Id> { set d | d in call.parts && IsIn(call, d) && d != c }
  function Seats(call: Call): set<Id> { set d | d in call.parts && IsIn(call, d) }

  // ── operations on the table ──────────────────────────────────────────────

  predicate Visible(calls: Table, world: Id, id: Id) { id in calls && calls[id].world == world }
  predicate VisibleRoom(calls: Table, world: Id, id: Id) { Visible(calls, world, id) && calls[id].topology.Sfu? }

  /** The character is ringing or joined in this open call. */
  predicate Occupies(call: Call, world: Id, c: Id) {
    call.world == world && !call.state.Ended? && c in call.parts
    && (call.parts[c].state.Ringing? || call.parts[c].state.Joined?)
  }
  predicate Busy(calls: Table, world: Id, c: Id) {
    exists id :: id in calls && Occupies(calls[id], world, c)
  }
  function RoomOf(world: Id): (Id, Call) -> bool {
    (id: Id, call: Call) => call.world == world && call.topology.Sfu? && call.state.Active?
  }

  function Insert(calls: Table, id: Id, call: Call): (Table, Result<Call>) {
    if id in calls then (calls, Err(DuplicateKey)) else (calls[id := call], Ok(call))
  }
  function Update(calls: Table, id: Id, r: Result<Call>): (Table, Result<Call>) {
    if r.Ok? then (calls[id := r.value], r) else (calls, r)
  }

  /** `callee` is what the directory resolved the number to. */
  function DoStart(calls: Table, world: Id, caller: Id, callee: Option<Id>, id: Id, now: int): (Table, Result<Call>) {
    if callee.None? then (calls, Err(NotFound))
    else if callee.value == caller then (calls, Err(Invalid))
    else if Busy(calls, world, callee.value) then (calls, Err(Conflict))
    else
      Insert(calls, id, Call(world, SessionState.Ringing, P2p, now,
        map[caller := Part(Joined, Some(now)), callee.value := Part(PartState.Ringing, None)]))
  }

  function DoTransit(calls: Table, world: Id, id: Id, actor: Id, action: Action, now: int): (Table, Result<Call>) {
    if !Visible(calls, world, id) then (calls, Err(NotFound))
    else Update(calls, id, Transitioned(calls[id], actor, action, now))
  }

  function RoomsIn(calls: Table, world: Id): set<Id> { set id | id in calls && RoomOf(world)(id, calls[id]) }

  function DoGroupCreate(calls: Table, world: Id, creator: Id, id: Id, maxRooms: int, now: int): (Table, Result<Call>) {
    var admits := RoomsAdmit(|RoomsIn(calls, world)|, maxRooms);
    if admits.Err? then (calls, Err(admits.fail))
    else Insert(calls, id, Call(world, Active, Sfu, now, map[creator := Part(Joined, Some(now))]))
  }

  function DoGroupJoin(calls: Table, world: Id, id: Id, c: Id, cap: int, now: int): (Table, Result<Call>) {
    if !VisibleRoom(calls, world, id) then (calls, Err(NotFound))
    else
      var admits := JoinAdmits(calls[id].state, |Others(calls[id], c)|, cap);
      if admits.Err? then (calls, Err(admits.fail)) else Update(calls, id, Ok(Admitted(calls[id], c, now)))
  }

  function DoGroupLeave(calls: Table, world: Id, id: Id, c: Id): (Table, Result<Call>) {
    if !VisibleRoom(calls, world, id) then (calls, Err(NotFound))
    else if c !in calls[id].parts then (calls, Err(Forbidden))
    else Update(calls, id, Ok(Departed(calls[id], c)))
  }

  function DoGroupEnd(calls: Table, world: Id, id: Id, c: Id): (Table, Result<Call>) {
    if !VisibleRoom(calls, world, id) then (calls, Err(NotFound))
    else if !IsCreator(calls[id], c) then (calls, Err(Forbidden))
    else Update(calls, id, Ok(EndedCall(calls[id])))
  }

  /** The webhook finds the world itself; an unknown room is ignored. */
  function DoWebhookParticipant(calls: Table, id: Id, c: Id, joined: bool, now: int): Table {
    if id !in calls || !calls[id].topology.Sfu? then calls
    else calls[id := if joined then Admitted(calls[id], c, now) else Departed(calls[id], c)]
  }
  function DoWebhookFinished(calls: Table, id: Id): Table {
    if id !in calls || !calls[id].topology.Sfu? then calls else calls[id := EndedCall(calls[id])]
  }

  /** An `UPDATE .. SET state = 'ended' WHERE ..`. */
  function EndWhere(calls: Table, chosen: (Id, Call) -> bool): Table {
    map id | id in calls :: if chosen(id, calls[id]) then EndedCall(calls[id]) else calls[id]
  }
  function ZombieRing(world: Id, now: int): (Id, Call) -> bool {
    (id: Id, call: Call) => call.world == world && call.state.Ringing? && call.createdAt < now - RING_TIMEOUT
  }
  function Orphan(world: Id, ids: set<Id>): (Id, Call) -> bool {
    (id: Id, call: Call) => call.world == world && id in ids && call.state.Active?
  }
  function EmptyRoom(world: Id, now: int, age: int): (Id, Call) -> bool {
    (id: Id, call: Call) =>
      call.world == world && call.topology.Sfu? && call.state.Active? && call.createdAt < now - age && !Occupied(call)
  }

  datatype Event =
    | Start(world: Id, caller: Id, callee: Option<Id>, id: Id, now: int)
    | Transit(world: Id, id: Id, actor: Id, action: Action, now: int)
    | GroupCreate(world: Id, caller: Id, id: Id, maxRooms: int, now: int)
    | GroupJoin(world: Id, id: Id, actor: Id, cap: int, now: int)
    | GroupLeave(world: Id, id: Id, actor: Id)
    | GroupEnd(world: Id, id: Id, actor: Id)
    | WebhookParticipant(id: Id, actor: Id, joined: bool, now: int)
    | WebhookFinished(id: Id)
    | ReapZombieRings(world: Id, now: int)
    | EndActiveOrphans(world: Id, ids: set<Id>)
    | ReapEmptyRooms(world: Id, now: int, age: int)

  function Step(calls: Table, e: Event): Table {
    match e
    case Start(w, caller, callee, id, now) => DoStart(calls, w, caller, callee, id, now).0
    case Transit(w, id, actor, action, now) => DoTransit(calls, w, id, actor, action, now).0
    case GroupCreate(w, creator, id, maxRooms, now) => DoGroupCreate(calls, w, creator, id, maxRooms, now).0
    case GroupJoin(w, id, c, cap, now) => DoGroupJoin(calls, w, id, c, cap, now).0
    case GroupLeave(w, id, c) => DoGroupLeave(calls, w, id, c).0
    case GroupEnd(w, id, c) => DoGroupEnd(calls, w, id, c).0
    case WebhookParticipant(id, c, joined, now) => DoWebhookParticipant(calls, id, c, joined, now)
    case WebhookFinished(id) => DoWebhookFinished(calls, id)
    case ReapZombieRings(w, now) => EndWhere(calls, ZombieRing(w, now))
    case EndActiveOrphans(w, ids) => EndWhere(calls, Orphan(w, ids))
    case ReapEmptyRooms(w, now, age) => EndWhere(calls, EmptyRoom(w, now, age))
  }

  function Run(events: seq<Event>): Table {
    if events == [] then map[] else Step(Run(events[..|events| - 1]), events[|events| - 1])
  }

  // ── the invariant of one call ────────────────────────────────────────────

  /** A one-to-one call nobody accepted: the caller in, the callee not (or not any more). */
  ghost predicate Unanswered(parts: map<Id, Part>, caller: Id, callee: Id) {
    && caller != callee && parts.Keys == {caller, callee}
    && parts[caller].state.Joined? && (parts[callee].state.Ringing? || parts[callee].state.Declined?)
  }

  ghost predicate CallHolds(call: Call) {
    && (!call.state.Ended? ==> Occupied(call))
    && (call.state.Ringing? ==> call.topology.P2p? && exists caller, callee :: Unanswered(call.parts, caller, callee))
    && (call.topology.Sfu? ==> forall c :: c in call.parts ==> call.parts[c].state.Joined? || call.parts[c].state.Left?)
  }

  ghost predicate Holds(calls: Table) {
    forall id {:trigger calls[id]} :: id in calls ==> CallHolds(calls[id])
  }

  lemma TransitionKeepsCall(call: Call, actor: Id, action: Action, now: int)
    requires CallHolds(call)
    ensures Transitioned(call, actor, action, now).Ok? ==> CallHolds(Transitioned(call, actor, action, now).value)
  {
    var r := Transitioned(call, actor, action, now);
    if r.Ok? {
      var call' := r.value;
      var c :| c in call.parts && IsIn(call, c);
      if !call'.state.Ended? {
        if action.Accept? {
          assert IsIn(call', actor);
        } else if action.Decline? {
          assert IsIn(call', c);
        } else {
          var d :| d in call.parts && d != actor && call.parts[d].state == Joined;
          assert IsIn(call', d);
        }
      }
      if call'.state.Ringing? {
        var caller, callee :| Unanswered(call.parts, caller, callee);
        assert actor == callee ==> Unanswered(call'.parts, caller, callee);
        assert actor == caller ==> action.Hangup? && Joined !in OthersOf(call.parts, actor);
      }
    }
  }

  lemma AdmissionKeepsCall(call: Call, c: Id, now: int)
    requires CallHolds(call) && call.topology.Sfu?
    ensures CallHolds(Admitted(call, c, now))
  {
    assert IsIn(Admitted(call, c, now), c);
  }

  lemma StartHolds(world: Id, caller: Id, callee: Id, now: int)
    requires caller != callee
    ensures CallHolds(Call(world, SessionState.Ringing, P2p, now,
                      map[caller := Part(Joined, Some(now)), callee := Part(PartState.Ringing, None)]))
  {
    var call := Call(world, SessionState.Ringing, P2p, now,
                      map[caller := Part(Joined, Some(now)), callee := Part(PartState.Ringing, None)]);
    assert IsIn(call, caller);
    assert Unanswered(call.parts, caller, callee);
  }

  lemma StepKeepsHolds(calls: Table, e: Event)
    requires Holds(calls)
    ensures Holds(Step(calls, e))
  {
    match e
    case Start(w, caller, callee, id, now) =>
      if callee.Some? && callee.value != caller { StartHolds(w, caller, callee.value, now); }
    case Transit(w, id, actor, action, now) =>
      if id in calls { TransitionKeepsCall(calls[id], actor, action, now); }
    case GroupCreate(w, creator, id, maxRooms, now) =>
      assert IsIn(Call(w, Active, Sfu, now, map[creator := Part(Joined, Some(now))]), creator);
    case GroupJoin(w, id, c, cap, now) =>
      if VisibleRoom(calls, w, id) { AdmissionKeepsCall(calls[id], c, now); }
    case GroupLeave(w, id, c) =>
    case GroupEnd(w, id, c) =>
    case WebhookParticipant(id, c, joined, now) =>
      if id in calls && calls[id].topology.Sfu? { AdmissionKeepsCall(calls[id], c, now); }
    case WebhookFinished(id) =>
    case ReapZombieRings(w, now) =>
    case EndActiveOrphans(w, ids) =>
    case ReapEmptyRooms(w, now, age) =>
  }

  lemma {:induction false} RunHolds(events: seq<Event>)
    ensures Holds(Run(events))
  {
    if events != [] {
      RunHolds(events[..|events| - 1]);
      StepKeepsHolds(Run(events[..|events| - 1]), events[|events| - 1]);
    }
  }

  // ── main results: who is in an open call ─────────────────────────────────

  /** Whatever commands, webhooks and reaps ran, an open call has somebody in it, and a
      ringing one is a one-to-one call with the caller alone in it. */
  lemma OpenCallsAreOccupied(events: seq<Event>, id: Id)
    ensures var calls := Run(events);
            id in calls && !calls[id].state.Ended? ==>
              Occupied(calls[id])
              && (calls[id].state.Ringing? ==> calls[id].topology.P2p? && |Seats(calls[id])| == 1)
  {
    RunHolds(events);
    var calls := Run(events);
    if id in calls && calls[id].state.Ringing? {
      var caller, callee :| Unanswered(calls[id].parts, caller, callee);
      assert Seats(calls[id]) == {caller};
    }
  }

  /** The branch of `decline` that ends the call is never taken. */
  lemma DeclineNeverEnds(events: seq<Event>, world: Id, id: Id, actor: Id, now: int)
    ensures var (_, r) := DoTransit(Run(events), world, id, actor, Decline, now);
            r.Ok? ==> r.value.state == Run(events)[id].state
  {
    RunHolds(events);
    var calls := Run(events);
    if Visible(calls, world, id) && !calls[id].state.Ended? {
      var c :| c in calls[id].parts && IsIn(calls[id], c);
      assert c != actor ==> calls[id].parts[c].state in OthersOf(calls[id].parts, actor);
    }
  }

  /** The empty-room reap never finds a room. */
  lemma EmptyRoomReapFindsNothing(events: seq<Event>, world: Id, now: int, age: int)
    ensures EndWhere(Run(events), EmptyRoom(world, now, age)) == Run(events)
  {
    RunHolds(events);
    var calls := Run(events);
    forall id | id in calls ensures !EmptyRoom(world, now, age)(id, calls[id]) {
      assert CallHolds(calls[id]);
    }
    assert EndWhere(calls, EmptyRoom(world, now, age)) == calls;
  }

  /** A hangup ends the call exactly when nobody else is in it; hanging up a ring
      always does. */
  lemma HangupEndsIffLast(events: seq<Event>, world: Id, id: Id, actor: Id, now: int)
    ensures var calls := Run(events);
            var (_, r) := DoTransit(calls, world, id, actor, Hangup, now);
            r.Ok? ==>
              && (r.value.state.Ended? <==> Others(calls[id], actor) == {})
              && (calls[id].state.Ringing? ==> r.value.state.Ended?)
  {
    RunHolds(events);
    var calls := Run(events);
    if Visible(calls, world, id) {
      var call := calls[id];
      if Joined in OthersOf(call.parts, actor) {
        var d :| d in call.parts && d != actor && call.parts[d].state == Joined;
        assert d in Others(call, actor);
      }
      if call.state.Ringing? {
        var caller, callee :| Unanswered(call.parts, caller, callee);
      }
    }
  }

  /** Leaving an open room ends it exactly when nobody else is in it. */
  lemma LeaveEndsIffLast(events: seq<Event>, world: Id, id: Id, c: Id)
    ensures var calls := Run(events);
            var (_, r) := DoGroupLeave(calls, world, id, c);
            r.Ok? && !calls[id].state.Ended? ==> (r.value.state.Ended? <==> Others(calls[id], c) == {})
  {
    var calls := Run(events);
    if VisibleRoom(calls, world, id) && c in calls[id].parts {
      var left := calls[id].(parts := calls[id].parts[c := calls[id].parts[c].(state := Left)]);
      assert Occupied(left) <==> exists d :: d in Others(calls[id], c) by {
        if Occupied(left) {
          var d :| d in left.parts && IsIn(left, d);
          assert d in Others(calls[id], c);
        }
        if d :| d in Others(calls[id], c) {
          assert IsIn(left, d);
        }
      }
    }
  }

  // ── main results: time runs forward ──────────────────────────────────────

  /** What one call may become: identity kept, state forward only, participants and
      their first-join stamps kept. */
  ghost predicate Later(call: Call, call': Call) {
    && call'.world == call.world && call'.topology == call.topology && call'.createdAt == call.createdAt
    && Rank(call.state) <= Rank(call'.state)
    && (call.topology.Sfu? || call.parts.Keys == call'.parts.Keys)
    && forall c {:trigger StampKept(call, call', c)} :: c in call.parts ==> StampKept(call, call', c)
  }
  ghost predicate StampKept(call: Call, call': Call, c: Id) {
    c in call.parts ==> c in call'.parts && (call.parts[c].joinedAt.Some? ==> call'.parts[c].joinedAt == call.parts[c].joinedAt)
  }
  ghost predicate AllLater(calls: Table, calls': Table) {
    forall id {:trigger id in calls'} :: id in calls ==> id in calls' && Later(calls[id], calls'[id])
  }

  lemma LaterIsTransitive(a: Call, b: Call, c: Call)
    requires Later(a, b) && Later(b, c)
    ensures Later(a, c)
  {
    forall p | p in a.parts ensures StampKept(a, c, p) {
      assert StampKept(a, b, p) && StampKept(b, c, p);
    }
  }

  lemma TransitionIsLater(call: Call, actor: Id, action: Action, now: int)
    ensures Transitioned(call, actor, action, now).Ok? ==> Later(call, Transitioned(call, actor, action, now).value)
  {
    var r := Transitioned(call, actor, action, now);
    if r.Ok? {
      assert r.value.parts.Keys == call.parts.Keys;
    }
  }

  lemma EndedIsLater(calls: Table, chosen: (Id, Call) -> bool)
    ensures AllLater(calls, EndWhere(calls, chosen))
  {
    forall id | id in calls ensures Later(calls[id], EndWhere(calls, chosen)[id]) {
      assert Later(calls[id], calls[id]) && Later(calls[id], EndedCall(calls[id]));
    }
  }

  lemma StepIsLater(calls: Table, e: Event)
    ensures AllLater(calls, Step(calls, e))
  {
    match e
    case Start(w, caller, callee, id, now) =>
    case Transit(w, id, actor, action, now) => if id in calls { TransitionIsLater(calls[id], actor, action, now); }
    case GroupCreate(w, creator, id, maxRooms, now) =>
    case GroupJoin(w, id, c, cap, now) =>
    case GroupLeave(w, id, c) =>
    case GroupEnd(w, id, c) =>
    case WebhookParticipant(id, c, joined, now) =>
    case WebhookFinished(id) =>
    case ReapZombieRings(w, now) => EndedIsLater(calls, ZombieRing(w, now));
    case EndActiveOrphans(w, ids) => EndedIsLater(calls, Orphan(w, ids));
    case ReapEmptyRooms(w, now, age) => EndedIsLater(calls, EmptyRoom(w, now, age));
  }

  /** Over any run, a call only moves forward through ringing, active, ended, and keeps
      its world, its topology, its participants and every first-join time. */
  lemma {:induction false} CallsOnlyMoveForward(events: seq<Event>, i: nat)
    requires i <= |events|
    ensures AllLater(Run(events[..i]), Run(events))
  {
    if i == |events| {
      assert events[..i] == events;
    } else {
      var before := events[..|events| - 1];
      assert before[..i] == events[..i];
      CallsOnlyMoveForward(before, i);
      StepIsLater(Run(before), events[|events| - 1]);
      forall id | id in Run(events[..i]) ensures id in Run(events) && Later(Run(events[..i])[id], Run(events)[id]) {
        assert id in Run(before) && id in Run(events);
        LaterIsTransitive(Run(events[..i])[id], Run(before)[id], Run(events)[id]);
      }
    }
  }

  // ── main results: the creator of a room ──────────────────────────────────

  /** A newcomer takes the creator's place exactly when its first join is stamped
      earlier, or at the same instant with the smaller id. */
  lemma NewcomerBecomesCreatorIff(call: Call, creator: Id, c: Id, now: int)
    requires IsCreator(call, creator)
    ensures var call' := Admitted(call, c, now);
            var first := call.parts[creator].joinedAt.value;
            IsCreator(call', creator)
            <==> !((c !in call.parts || call.parts[c].joinedAt.None?) && (now < first || (now == first && c < creator)))
  {
    var call' := Admitted(call, c, now);
    if IsCreator(call', creator) {
      assert JoinedFirst(call', creator, c);
    }
    forall d | d in call.parts && call.parts[d].joinedAt.Some? ensures JoinedFirst(call', creator, d) {
      assert JoinedFirst(call, creator, d);
    }
  }

  /** The event admits its actor into this room, by command or by webhook. */
  predicate Admits(calls: Table, e: Event, id: Id) {
    id in calls && calls[id].topology.Sfu?
    && match e
       case GroupJoin(world, i, actor, cap, _) =>
         i == id && calls[id].world == world && JoinAdmits(calls[id].state, |Others(calls[id], actor)|, cap).Ok?
       case WebhookParticipant(i, _, joined, _) => i == id && joined
       case _ => false
  }

  /** It displaces this creator: a first join stamped earlier, or at the same instant with
      the smaller id. A rejoin keeps its stamp and displaces nobody. */
  predicate Displaces(calls: Table, e: Event, id: Id, creator: Id) {
    Admits(calls, e, id) && creator in calls[id].parts && calls[id].parts[creator].joinedAt.Some?
    && (e.actor !in calls[id].parts || calls[id].parts[e.actor].joinedAt.None?)
    && var first := calls[id].parts[creator].joinedAt.value;
       e.now < first || (e.now == first && e.actor < creator)
  }

  /** Events that admit nobody leave every stamp of the room as it was. */
  lemma StampsStay(calls: Table, e: Event, id: Id, creator: Id)
    requires Holds(calls) && id in calls && calls[id].topology.Sfu? && IsCreator(calls[id], creator) && !Admits(calls, e, id)
    ensures id in Step(calls, e) && IsCreator(Step(calls, e)[id], creator)
  {
    var calls' := Step(calls, e);
    StepIsLater(calls, e);
    assert id in calls' && StampKept(calls[id], calls'[id], creator);
    forall d | d in calls'[id].parts && calls'[id].parts[d].joinedAt.Some? ensures JoinedFirst(calls'[id], creator, d) {
      assert d in calls[id].parts && calls'[id].parts[d].joinedAt == calls[id].parts[d].joinedAt;
      assert JoinedFirst(calls[id], creator, d);
    }
  }

  /** A step leaves a room its creator if and only if it does not displace them. */
  lemma StepKeepsCreatorIff(calls: Table, e: Event, id: Id, creator: Id)
    requires Holds(calls) && id in calls && calls[id].topology.Sfu? && IsCreator(calls[id], creator)
    ensures var calls' := Step(calls, e);
            && id in calls' && calls'[id].topology.Sfu?
            && creator in calls'[id].parts && calls'[id].parts[creator].joinedAt == calls[id].parts[creator].joinedAt
            && (IsCreator(calls'[id], creator) <==> !Displaces(calls, e, id, creator))
  {
    StepIsLater(calls, e);
    assert id in Step(calls, e) && StampKept(calls[id], Step(calls, e)[id], creator);
    if Admits(calls, e, id) {
      NewcomerBecomesCreatorIff(calls[id], creator, e.actor, e.now);
      assert Step(calls, e)[id] == Admitted(calls[id], e.actor, e.now);
    } else {
      StampsStay(calls, e, id, creator);
    }
  }

  /** The i-th event of the run opened this room. */
  ghost predicate Opens(events: seq<Event>, i: nat, id: Id) {
    i < |events| && events[i].GroupCreate? && events[i].id == id
    && DoGroupCreate(Run(events[..i]), events[i].world, events[i].caller, id, events[i].maxRooms, events[i].now).1.Ok?
  }
  ghost predicate NobodyDisplaces(events: seq<Event>, i: nat, id: Id, creator: Id) {
    forall j {:trigger events[j]} :: i < j < |events| ==> !Displaces(Run(events[..j]), events[j], id, creator)
  }

  lemma DisplacingPrefix(events: seq<Event>, i: nat, n: nat, id: Id, creator: Id)
    requires i < n <= |events| && NobodyDisplaces(events, i, id, creator)
    ensures NobodyDisplaces(events[..n], i, id, creator)
  {
    forall j | i < j < n ensures !Displaces(Run(events[..n][..j]), events[..n][j], id, creator) {
      assert events[..n][..j] == events[..j] && events[..n][j] == events[j];
    }
  }

  lemma OpenerIsCreator(calls: Table, e: Event)
    requires e.GroupCreate? && DoGroupCreate(calls, e.world, e.caller, e.id, e.maxRooms, e.now).1.Ok?
    ensures e.id in Step(calls, e) && Step(calls, e)[e.id].topology.Sfu? && IsCreator(Step(calls, e)[e.id], e.caller)
    ensures Step(calls, e)[e.id].parts[e.caller].joinedAt == Some(e.now)
  {
    assert JoinedFirst(Step(calls, e)[e.id], e.caller, e.caller);
  }

  /** This room is theirs since then. */
  ghost predicate IsTheirs(calls: Table, id: Id, creator: Id, since: int) {
    id in calls && calls[id].topology.Sfu? && IsCreator(calls[id], creator) && calls[id].parts[creator].joinedAt == Some(since)
  }

  lemma TheirsStays(calls: Table, e: Event, id: Id, creator: Id, since: int)
    requires Holds(calls) && IsTheirs(calls, id, creator, since) && !Displaces(calls, e, id, creator)
    ensures IsTheirs(Step(calls, e), id, creator, since)
  {
    StepKeepsCreatorIff(calls, e, id, creator);
  }

  lemma LastDisplacesNobody(events: seq<Event>, i: nat, id: Id, creator: Id)
    requires i < |events| - 1 && NobodyDisplaces(events, i, id, creator)
    ensures var n := |events| - 1;
            NobodyDisplaces(events[..n], i, id, creator) && !Displaces(Run(events[..n]), events[n], id, creator)
  {
    DisplacingPrefix(events, i, |events| - 1, id, creator);
  }

  lemma {:induction false} CreatorStays(events: seq<Event>, i: nat, id: Id)
    requires Opens(events, i, id) && NobodyDisplaces(events, i, id, events[i].caller)
    ensures IsTheirs(Run(events), id, events[i].caller, events[i].now)
    decreases |events|
  {
    var n := |events| - 1;
    var before := events[..n];
    if i == n {
      OpenerIsCreator(Run(before), events[n]);
    } else {
      OpensEarlier(events, i, n, id);
      LastDisplacesNobody(events, i, id, events[i].caller);
      CreatorStays(before, i, id);
      RunHolds(before);
      TheirsStays(Run(before), events[n], id, events[i].caller, events[i].now);
    }
  }

  /** `group_end` by `c` succeeds just if `c` is this character. */
  predicate EndAnswers(calls: Table, id: Id, creator: Id, c: Id)
    requires id in calls
  {
    DoGroupEnd(calls, calls[id].world, id, c).1.Ok? <==> c == creator
  }
  ghost predicate EndsOnlyFor(calls: Table, id: Id, creator: Id) {
    id in calls && forall c {:trigger EndAnswers(calls, id, creator, c)} :: EndAnswers(calls, id, creator, c)
  }

  lemma EndIsForTheCreator(calls: Table, id: Id, creator: Id)
    requires id in calls && calls[id].topology.Sfu?
    ensures EndsOnlyFor(calls, id, creator) <==> IsCreator(calls[id], creator)
  {
    if EndsOnlyFor(calls, id, creator) {
      assert EndAnswers(calls, id, creator, creator);
    }
    if IsCreator(calls[id], creator) {
      forall c ensures EndAnswers(calls, id, creator, c) {
        if IsCreator(calls[id], c) {
          assert JoinedFirst(calls[id], c, creator) && JoinedFirst(calls[id], creator, c);
        }
      }
    }
  }

  /** At every point of a run after the opening of a room `group_end` serves the one who
      opened it and nobody else, if and only if no later join displaces them. */
  lemma OnlyTheCreatorEndsIff(events: seq<Event>, i: nat, id: Id)
    requires Opens(events, i, id)
    ensures (forall n {:trigger events[..n]} :: i < n <= |events| ==> EndsOnlyFor(Run(events[..n]), id, events[i].caller))
            <==> NobodyDisplaces(events, i, id, events[i].caller)
  {
    var creator := events[i].caller;
    if NobodyDisplaces(events, i, id, creator) {
      forall n | i < n <= |events| ensures EndsOnlyFor(Run(events[..n]), id, creator) {
        OpensEarlier(events, i, n, id);
        DisplacingPrefix(events, i, n, id, creator);
        CreatorStays(events[..n], i, id);
        EndIsForTheCreator(Run(events[..n]), id, creator);
      }
    }
    if forall n {:trigger events[..n]} :: i < n <= |events| ==> EndsOnlyFor(Run(events[..n]), id, creator) {
      forall j | i < j < |events| ensures !Displaces(Run(events[..j]), events[j], id, creator) {
        StillTheCreator(events, i, j, id);
      }
    }
  }

  lemma OpensEarlier(events: seq<Event>, i: nat, n: nat, id: Id)
    requires Opens(events, i, id) && i < n <= |events|
    ensures Opens(events[..n], i, id) && events[..n][i] == events[i]
  {
    assert events[..n][..i] == events[..i];
  }

  lemma StillTheCreator(events: seq<Event>, i: nat, j: nat, id: Id)
    requires Opens(events, i, id) && i < j < |events|
    requires EndsOnlyFor(Run(events[..j]), id, events[i].caller) && EndsOnlyFor(Run(events[..j + 1]), id, events[i].caller)
    ensures !Displaces(Run(events[..j]), events[j], id, events[i].caller)
  {
    var calls, creator := Run(events[..j]), events[i].caller;
    assert events[..j + 1][..j] == events[..j];
    RunHolds(events[..j]);
    assert EndAnswers(calls, id, creator, creator);
    StepKeepsCreatorIff(calls, events[j], id, creator);
    EndIsForTheCreator(Run(events[..j + 1]), id, creator);
  }

  /** Whoever opened a room is the only one who can end it by command, as long as no later
      join displaces them. */
  lemma OnlyTheCreatorEnds(events: seq<Event>, i: nat, id: Id, c: Id)
    requires Opens(events, i, id) && NobodyDisplaces(events, i, id, events[i].caller)
    ensures id in Run(events) && IsCreator(Run(events)[id], events[i].caller)
    ensures Run(events)[id].parts[events[i].caller].joinedAt == Some(events[i].now)
    ensures DoGroupEnd(Run(events), Run(events)[id].world, id, c).1.Ok? <==> c == events[i].caller
  {
    CreatorStays(events, i, id);
    EndIsForTheCreator(Run(events), id, events[i].caller);
    assert EndAnswers(Run(events), id, events[i].caller, c);
  }

  // ── main results: seats ──────────────────────────────────────────────────

  /** Joins by command use this cap. */
  predicate Capped(e: Event, cap: int) { e.GroupJoin? ==> e.cap == cap }

  /** A webhook join of a newcomer into a room whose seats are taken; readable before the
      webhook is applied. */
  predicate Overfills(calls: Table, e: Event, cap: int) {
    e.WebhookParticipant? && e.joined && e.id in calls && calls[e.id].topology.Sfu?
    && |Others(calls[e.id], e.actor)| >= cap
  }

  ghost predicate SeatsHold(calls: Table, cap: int) {
    forall id {:trigger calls[id]} :: id in calls ==> (calls[id].topology.Sfu? ==> |Seats(calls[id])| <= cap)
  }

  lemma FewerSeats(call: Call, call': Call)
    requires forall c :: c in call'.parts && IsIn(call', c) ==> IsIn(call, c)
    ensures |Seats(call')| <= |Seats(call)|
  {
    SubsetIsSmaller(Seats(call'), Seats(call));
  }

  lemma JoinTakesOneSeat(call: Call, c: Id, now: int)
    ensures |Seats(Admitted(call, c, now))| == |Others(call, c)| + 1
  {
    assert Seats(Admitted(call, c, now)) == Others(call, c) + {c};
  }

  lemma StepKeepsSeats(calls: Table, e: Event, cap: int)
    requires cap >= 1 && SeatsHold(calls, cap) && Holds(calls) && Capped(e, cap) && !Overfills(calls, e, cap)
    ensures SeatsHold(Step(calls, e), cap)
  {
    var calls' := Step(calls, e);
    forall id | id in calls' && calls'[id].topology.Sfu? ensures |Seats(calls'[id])| <= cap {
      if id !in calls {
        assert Seats(calls'[id]) == {e.caller};
      } else if (e.GroupJoin? || (e.WebhookParticipant? && e.joined)) && calls'[id] != calls[id] {
        JoinTakesOneSeat(calls[id], e.actor, e.now);
      } else {
        FewerSeats(calls[id], calls'[id]);
      }
    }
  }

  /** A step keeps every room within the cap if and only if it is not such a join. */
  lemma StepKeepsSeatsIff(calls: Table, e: Event, cap: int)
    requires cap >= 1 && SeatsHold(calls, cap) && Holds(calls) && Capped(e, cap)
    ensures SeatsHold(Step(calls, e), cap) <==> !Overfills(calls, e, cap)
  {
    if Overfills(calls, e, cap) {
      JoinTakesOneSeat(calls[e.id], e.actor, e.now);
      assert |Seats(Step(calls, e)[e.id])| > cap;
    } else {
      StepKeepsSeats(calls, e, cap);
    }
  }

  ghost predicate NeverOverfills(events: seq<Event>, cap: int) {
    forall i {:trigger events[i]} :: 0 <= i < |events| ==> !Overfills(Run(events[..i]), events[i], cap)
  }

  lemma {:induction false} SeatsStayWithinTheCap(events: seq<Event>, cap: int)
    requires cap >= 1 && (forall i :: 0 <= i < |events| ==> Capped(events[i], cap)) && NeverOverfills(events, cap)
    ensures SeatsHold(Run(events), cap)
  {
    if events != [] {
      var n := |events| - 1;
      forall i | 0 <= i < n ensures !Overfills(Run(events[..n][..i]), events[..n][i], cap) {
        assert events[..n][..i] == events[..i] && events[..n][i] == events[i];
      }
      SeatsStayWithinTheCap(events[..n], cap);
      RunHolds(events[..n]);
      assert !Overfills(Run(events[..n]), events[n], cap);
      StepKeepsSeats(Run(events[..n]), events[n], cap);
    }
  }

  /** Rooms stay within the cap all along a run if and only if no webhook of it joins a
      newcomer into a room whose seats are taken. */
  lemma SeatsHoldThroughoutIff(events: seq<Event>, cap: int)
    requires cap >= 1 && forall i :: 0 <= i < |events| ==> Capped(events[i], cap)
    ensures (forall n {:trigger events[..n]} :: 0 <= n <= |events| ==> SeatsHold(Run(events[..n]), cap))
            <==> NeverOverfills(events, cap)
  {
    if NeverOverfills(events, cap) {
      forall n | 0 <= n <= |events| ensures SeatsHold(Run(events[..n]), cap) {
        forall i | 0 <= i < n ensures !Overfills(Run(events[..n][..i]), events[..n][i], cap) {
          assert events[..n][..i] == events[..i] && events[..n][i] == events[i];
        }
        SeatsStayWithinTheCap(events[..n], cap);
      }
    }
    if forall n {:trigger events[..n]} :: 0 <= n <= |events| ==> SeatsHold(Run(events[..n]), cap) {
      forall i | 0 <= i < |events| ensures !Overfills(Run(events[..i]), events[i], cap) {
        assert events[..i + 1][..i] == events[..i] && events[..i + 1][i] == events[i];
        RunHolds(events[..i]);
        assert SeatsHold(Run(events[..i + 1]), cap);
        StepKeepsSeatsIff(Run(events[..i]), events[i], cap);
      }
    }
  }

  /** Such a run exists: the webhook seats two where the cap of one refuses the command. */
  lemma WebhookJoinIgnoresTheCap()
    ensures var events := [GroupCreate(1, 2, 3, 10, 0), WebhookParticipant(3, 4, true, 1)];
            3 in Run(events) && |Seats(Run(events)[3])| == 2
            && DoGroupJoin(Run(events[..1]), 1, 3, 4, 1, 1).1 == Err(Conflict)
  {
    var events := [GroupCreate(1, 2, 3, 10, 0), WebhookParticipant(3, 4, true, 1)];
    assert events[..1] == [events[0]] && events[..1][..0] == [];
    assert Run(events[..1][..0]) == map[];
    assert RoomsIn(map[], 1) == {};
    var first := Run(events[..1]);
    assert first == Step(map[], events[0]);
    assert first == map[3 := Call(1, Active, Sfu, 0, map[2 := Part(Joined, Some(0))])];
    assert Others(first[3], 4) == {2};
    assert Seats(Run(events)[3]) == {2, 4};
  }
}
