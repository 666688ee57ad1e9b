/** Taking a member off a channel's traffic: the roster row, the drop of the topic, and the
    two halves of a `sub` command are separate steps. One channel and one character; the
    registry underneath is the whole one, with every other connection in it. */
module Eviction {
  import opened Common
  import opened SessionIndex

  /** The character, and the channel's topic. */
  datatype Target = Target(world: Uuid, character: Uuid, topic: Topic)

  /** `member` is the roster row; `authorized` are the connections of the character whose
      `sub` passed the membership check and has not registered yet; `drops` counts the
      removals whose drop of the topic is still to come. */
  datatype State = State(ix: Index, member: bool, authorized: set<Conn>, drops: nat)

  datatype Event =
    | Add | Remove | Drop
    | Authorize(c: Conn)                // the membership check of a `sub`
    | Proceed(c: Conn)                  // the registration half of that `sub`
    | Registry(e: SessionIndex.Event)    // anything else the registry does

  predicate Theirs(who: Target, c: Conn) { c.world == who.world && c.character == who.character }

  /** The registry event is not this character's subscription to this topic. */
  predicate Other(who: Target, e: SessionIndex.Event) {
    e.Subscribe? ==> !(Theirs(who, e.c) && e.topic == who.topic)
  }

  ghost predicate Holds(who: Target, s: State) {
    Inv(s.ix) && forall c :: c in s.authorized ==> Theirs(who, c) && c.connSeq in s.ix.used
  }

  /** Events that are not enabled change nothing. */
  ghost function Step(who: Target, s: State, e: Event): State
    requires Inv(s.ix)
  {
    match e
    case Add => s.(member := true)
    case Remove => if s.member then s.(member := false, drops := s.drops + 1) else s
    case Drop =>
      if s.drops == 0 then s
      else s.(drops := s.drops - 1, ix := SessionIndex.Step(s.ix, DropCharacter(who.world, who.character, who.topic)))
    case Authorize(c) =>
      if s.member && c in s.ix.subs && Theirs(who, c) then s.(authorized := s.authorized + {c}) else s
    case Proceed(c) =>
      if c !in s.authorized then s
      else s.(authorized := s.authorized - {c}, ix := SessionIndex.Step(s.ix, SessionIndex.Subscribe(c, who.topic)))
    case Registry(re) => if Other(who, re) then s.(ix := SessionIndex.Step(s.ix, re)) else s
  }

  lemma StepHolds(who: Target, s: State, e: Event)
    requires Holds(who, s)
    ensures Holds(who, Step(who, s, e))
  {
    match e
    case Drop => IndexStep(s.ix, DropCharacter(who.world, who.character, who.topic));
    case Authorize(c) => assert c in s.ix.subs ==> NumberUsed(s.ix, c);
    case Proceed(c) => IndexStep(s.ix, SessionIndex.Subscribe(c, who.topic));
    case Registry(re) => IndexStep(s.ix, re);
    case _ =>
  }

  lemma IndexStep(ix: Index, e: SessionIndex.Event)
    requires Inv(ix)
    ensures Inv(SessionIndex.Step(ix, e)) && ix.used <= SessionIndex.Step(ix, e).used
  {
    SessionIndex.StepKeepsInv(ix, e);
    if e.DropCharacter? {
      SessionsAreOwn(ix);
      UnsubscribeAllKeepsUsed(ix, LiveOf(ix.sessions, e.world, e.character), e.topic);
    }
  }

  lemma {:induction false} UnsubscribeAllKeepsUsed(ix: Index, conns: set<Conn>, topic: Topic)
    requires conns <= ix.subs.Keys
    ensures UnsubscribeAll(ix, conns, topic).used == ix.used
    decreases conns
  {
    if conns != {} {
      var c :| c in conns && UnsubscribeAll(ix, conns, topic) == UnsubscribeAll(Unsubscribed(ix, c, topic), conns - {c}, topic);
      UnsubscribeAllKeepsUsed(Unsubscribed(ix, c, topic), conns - {c}, topic);
    }
  }

  /** `events` from a state on. */
  ghost function RunFrom(who: Target, s: State, events: seq<Event>): State
    requires Holds(who, s)
    decreases |events|
  {
    if events == [] then s
    else
      StepHolds(who, s, events[0]);
      RunFrom(who, Step(who, s, events[0]), events[1..])
  }

  const START: State := State(EMPTY, false, {}, 0)

  lemma StartHolds(who: Target)
    ensures Holds(who, START)
  {
    EmptyHolds();
  }

  ghost function Run(who: Target, events: seq<Event>): (s: State)
    ensures Holds(who, s)
  {
    StartHolds(who);
    RunHolds(who, START, events);
    RunFrom(who, START, events)
  }

  lemma {:induction false} RunHolds(who: Target, s: State, events: seq<Event>)
    requires Holds(who, s)
    ensures Holds(who, RunFrom(who, s, events))
    decreases |events|
  {
    if events != [] {
      StepHolds(who, s, events[0]);
      RunHolds(who, Step(who, s, events[0]), events[1..]);
    }
  }

  // ── who hears the channel ────────────────────────────────────────────────

  /** A publish on the topic reaches this connection of the character. */
  ghost predicate HearsOn(who: Target, ix: Index, c: Conn) { Theirs(who, c) && Receives(ix, (who.world, who.topic), c) }
  ghost predicate Hears(who: Target, s: State) { exists c :: HearsOn(who, s.ix, c) }

  /** A `sub` between its membership check and its registration, on a connection that is
      still the current one of its session. */
  ghost predicate Pending(s: State, c: Conn) { c in s.authorized && c in s.ix.subs && Current(s.ix.sessions, c) }

  ghost predicate NoAdd(events: seq<Event>) {
    forall i :: 0 <= i < |events| ==> !events[i].Add?
  }
  /** Unless added again, the character hears nothing of the channel any more. */
  ghost predicate StaysDeaf(who: Target, s: State)
    requires Holds(who, s)
  {
    forall more {:trigger RunFrom(who, s, more)} :: NoAdd(more) ==> !Hears(who, RunFrom(who, s, more))
  }

  /** What a removal and its drop leave when no `sub` was pending. */
  ghost predicate Evicted(who: Target, s: State) {
    Holds(who, s) && !s.member && (forall c :: !Pending(s, c)) && (forall c :: !HearsOn(who, s.ix, c))
  }

  /** A registry event makes nobody hear that did not, and no connection current that is
      not newly registered. */
  lemma RegistryMakesNoHearer(who: Target, ix: Index, e: SessionIndex.Event, c: Conn)
    requires Inv(ix) && Other(who, e)
    ensures HearsOn(who, SessionIndex.Step(ix, e), c) ==> HearsOn(who, ix, c)
    ensures var ix' := SessionIndex.Step(ix, e);
            c.connSeq in ix.used && c in ix'.subs && Current(ix'.sessions, c) ==> c in ix.subs && Current(ix.sessions, c)
  {
    if e.DropCharacter? {
      DropTakes(ix, e.world, e.character, e.topic, c);
    }
  }

  lemma DropTakes(ix: Index, world: Uuid, character: Uuid, topic: Topic, c: Conn)
    requires Inv(ix)
    ensures var ix' := SessionIndex.Step(ix, DropCharacter(world, character, topic));
            && ix'.sessions == ix.sessions && (c in ix'.subs <==> c in ix.subs)
            && (c in ix.subs ==> ix'.subs[c] == if Current(ix.sessions, c) && c.world == world && c.character == character
                                                then ix.subs[c] - {topic} else ix.subs[c])
  {
    SessionsAreOwn(ix);
    DropLeaves(ix, world, character, topic);
    if c in ix.subs {
      assert c.session in SessionsOf(ix.sessions, world, character) && Current(ix.sessions, c)
        <==> Current(ix.sessions, c) && c.world == world && c.character == character;
    }
  }

  lemma EvictedStep(who: Target, s: State, e: Event)
    requires Evicted(who, s) && !e.Add?
    ensures Evicted(who, Step(who, s, e))
  {
    var s' := Step(who, s, e);
    StepHolds(who, s, e);
    forall c ensures !Pending(s', c) && !HearsOn(who, s'.ix, c) {
      assert !Pending(s, c) && !HearsOn(who, s.ix, c);
      match e
      case Drop => DropTakes(s.ix, who.world, who.character, who.topic, c);
      case Registry(re) => if Other(who, re) { RegistryMakesNoHearer(who, s.ix, re, c); }
      case Proceed(x) => assert !Pending(s, x);
      case _ =>
    }
  }

  lemma {:induction false} EvictedRun(who: Target, s: State, more: seq<Event>)
    requires Evicted(who, s) && NoAdd(more)
    ensures !Hears(who, RunFrom(who, s, more))
    decreases |more|
  {
    if more != [] {
      EvictedStep(who, s, more[0]);
      EvictedRun(who, Step(who, s, more[0]), more[1..]);
    }
  }

  /** After any run, the drop that follows a removal takes the character off the channel
      for good if and only if no `sub` of theirs is pending on a current connection. */
  lemma DropEvictsIff(who: Target, events: seq<Event>)
    requires !Run(who, events).member && Run(who, events).drops > 0
    ensures var s := Run(who, events);
            StepKeeps(who, s, Drop) && (StaysDeaf(who, Step(who, s, Drop)) <==> forall c :: !Pending(s, c))
  {
    var s := Run(who, events);
    StepHolds(who, s, Drop);
    var d := Step(who, s, Drop);
    forall c ensures (Pending(d, c) <==> Pending(s, c)) && !HearsOn(who, d.ix, c) {
      DropTakes(s.ix, who.world, who.character, who.topic, c);
    }
    if forall c :: !Pending(s, c) {
      forall more | NoAdd(more) ensures !Hears(who, RunFrom(who, d, more)) {
        EvictedRun(who, d, more);
      }
    } else {
      var c :| Pending(s, c);
      LateSubHears(who, d, c);
    }
  }

  /** The step keeps the invariant, so that runs go on from it. */
  ghost predicate StepKeeps(who: Target, s: State, e: Event)
    requires Inv(s.ix)
  {
    Holds(who, Step(who, s, e))
  }

  /** The registration that was authorized before the removal goes through after the drop. */
  lemma LateSubHears(who: Target, d: State, c: Conn)
    requires Holds(who, d) && Pending(d, c)
    ensures !StaysDeaf(who, d)
  {
    var more := [Proceed(c)];
    StepHolds(who, d, more[0]);
    var d' := Step(who, d, more[0]);
    assert more[1..] == [] && RunFrom(who, d, more) == RunFrom(who, d', []) == d';
    assert HearsOn(who, d'.ix, c);
    assert NoAdd(more) && Hears(who, RunFrom(who, d, more));
  }

  // ── a removal from its start ─────────────────────────────────────────────

  /** Removing a member and dropping the topic takes them off the channel for good if and
      only if no `sub` of theirs is pending, whatever ran before. */
  lemma RemovedMemberIsEvictedIff(who: Target, events: seq<Event>)
    requires Run(who, events).member
    ensures var s := Run(who, events);
            var removed := Step(who, s, Remove);
            && StepKeeps(who, s, Remove) && StepKeeps(who, removed, Drop) && !removed.member
            && (StaysDeaf(who, Step(who, removed, Drop)) <==> forall c :: !Pending(s, c))
  {
    var s := Run(who, events);
    OneMore(who, START, events, Remove);
    assert Run(who, events + [Remove]) == Step(who, s, Remove) by {
      StartHolds(who);
    }
    DropEvictsIff(who, events + [Remove]);
    assert forall c :: Pending(Step(who, s, Remove), c) <==> Pending(s, c);
    StepHolds(who, s, Remove);
  }

  lemma {:induction false} OneMore(who: Target, s: State, events: seq<Event>, e: Event)
    requires Holds(who, s)
    ensures Holds(who, RunFrom(who, s, events)) && RunFrom(who, s, events + [e]) == Step(who, RunFrom(who, s, events), e)
    decreases |events|
  {
    StepHolds(who, s, (events + [e])[0]);
    if events == [] {
      assert ([] + [e])[1..] == [];
      assert RunFrom(who, s, [] + [e]) == RunFrom(who, Step(who, s, e), []);
    } else {
      OneMore(who, Step(who, s, events[0]), events[1..], e);
      assert (events + [e])[1..] == events[1..] + [e];
    }
  }

  /** When a member is in, who may begin to subscribe, and what is still owed to a removal. */
  lemma MembershipAfter(who: Target, events: seq<Event>, e: Event, c: Conn)
    ensures var s := Run(who, events);
            var s' := Step(who, s, e);
            && (s'.member <==> e.Add? || (s.member && !e.Remove?))
            && (c in s'.authorized <==>
                  || (c in s.authorized && e != Proceed(c))
                  || (e == Authorize(c) && s.member && c in s.ix.subs && Theirs(who, c)))
            && s'.drops == s.drops + (if e.Remove? && s.member then 1 else 0) - (if e.Drop? && s.drops > 0 then 1 else 0)
  {
  }

  /** That happens: a member whose check passed before the removal still hears the channel
      after it. */
  lemma LateSubIsReachable(who: Target)
    ensures exists c :: Run(who, [Registry(Register(c)), Add, Authorize(c)]).member
                        && Pending(Run(who, [Registry(Register(c)), Add, Authorize(c)]), c)
  {
    var c := Conn(1, who.world, who.character, 1);
    var events := [Registry(Register(c)), Add, Authorize(c)];
    StartHolds(who);
    var s1 := Step(who, START, events[0]);
    StepHolds(who, START, events[0]);
    var s2 := Step(who, s1, events[1]);
    StepHolds(who, s1, events[1]);
    var s3 := Step(who, s2, events[2]);
    StepHolds(who, s2, events[2]);
    assert events[1..] == [events[1], events[2]] && events[1..][1..] == [events[2]] && events[1..][1..][1..] == [];
    assert RunFrom(who, s2, events[1..][1..]) == RunFrom(who, s3, []) == s3;
    assert RunFrom(who, s1, events[1..]) == s3;
    assert Run(who, events) == s3;
    assert s3.member && Pending(s3, c);
  }
}
