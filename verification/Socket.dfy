/** The web client's multiplexed socket: reference-counted subscriptions kept across
    reconnects, while tokens are awaited, sockets open and close, and callers subscribe,
    unsubscribe, close and connect at any moment in between. */
module Socket {
  import opened Common

  type Topic = string

  datatype Phase = Idle | Connecting | Open | Closed

  /** One WebSocket; `view` is what replaying the sub and unsub frames sent on it gives,
      `closing` is set by close() and `gone` by the close event. */
  datatype Conn = Conn(up: bool, closing: bool, gone: bool, view: set<Topic>)

  /** The reference count of each topic, and the unsubscribe functions not called yet. */
  datatype Refs = Refs(subs: map<Topic, nat>, handles: map<int, Topic>, next: int)

  /** Commands are numbered as they are issued: `queue` are those kept for later, `handed`
      those passed to request(), `refused` those rejected without a try. */
  datatype Commands = Commands(queue: seq<int>, handed: seq<int>, refused: seq<int>, next: nat)

  /** `provider`: the token comes from a function, not from a fixed string; `retried`: the
      last one was rejected and another fetched. */
  datatype Login = Login(provider: bool, retried: bool)

  /** `waits` counts connect() calls whose token is still to come. `auths` has the sockets
      whose auth request awaits its ack, each with the socket that carried the request. */
  datatype State = State(
    phase: Phase,
    ws: Option<int>,
    waits: nat,
    auths: map<int, int>,
    sockets: map<int, Conn>,
    manualClose: bool,
    timer: bool,
    refresh: bool,
    login: Login,
    refs: Refs,
    cmds: Commands,
    nextSocket: int)

  function Fresh(provider: bool): State {
    State(Idle, None, 0, map[], map[], false, false, false, Login(provider, false),
          Refs(map[], map[], 0), Commands([], [], [], 0), 0)
  }

  const BAD_FIRST_FRAME: int := 4400
  const UNAUTHORIZED: int := 4401
  const TAKEN_OVER: int := 4408
  /** The connection was lost. */
  const ABNORMAL: int := 1006

  datatype Event =
    | Connect                        // called by the application
    | TimerFires                     // the reconnect timer calls connect()
    | TokenReady | TokenFails
    | Opens(i: int)
    | AuthAcked(i: int, expires: bool)   // `expires`: the token says when, so a refresh is scheduled
    | AuthFails(i: int)
    | Closes(i: int, code: int)
    | Close
    | Sub(topic: Topic)
    | Unsub(h: int)
    | Cmd
    | RefreshFires(renewed: bool)

  // ── steps ────────────────────────────────────────────────────────────────

  /** connect() does something. */
  predicate Proceeds(s: State) { s.phase.Idle? || s.phase.Closed? }

  /** A socket is made with the token at hand. */
  function Ready(s: State): State {
    s.(ws := Some(s.nextSocket), nextSocket := s.nextSocket + 1, sockets := s.sockets[s.nextSocket := Conn(false, false, false, {})])
  }

  /** A provider's token is awaited, a fixed one is there. */
  function Connected(s: State): State {
    if !Proceeds(s) then s
    else
      var s1 := s.(phase := Connecting, manualClose := false, timer := false);
      if s.login.provider then s1.(waits := s.waits + 1) else Ready(s1)
  }

  /** A send reaches the current socket if it has opened; otherwise it throws into the
      request's promise. */
  predicate CanSend(s: State) { s.ws.Some? && s.ws.value in s.sockets && s.sockets[s.ws.value].up }

  function WithView(s: State, view: set<Topic>): State
    requires CanSend(s)
  {
    s.(sockets := s.sockets[s.ws.value := s.sockets[s.ws.value].(view := view)])
  }
  function View(s: State): set<Topic> { if s.ws.Some? && s.ws.value in s.sockets then s.sockets[s.ws.value].view else {} }

  function SendSubs(s: State, topics: set<Topic>): State {
    if CanSend(s) then WithView(s, View(s) + topics) else s
  }
  function SendUnsub(s: State, topic: Topic): State {
    if CanSend(s) then WithView(s, View(s) - {topic}) else s
  }

  /** A message of this socket still arrives. */
  predicate Delivers(s: State, i: int) {
    i in s.sockets && s.sockets[i].up && !s.sockets[i].closing && !s.sockets[i].gone
  }

  /** `ws.close()` on this socket. */
  function Closing(s: State, i: int): State {
    if i in s.sockets then s.(sockets := s.sockets[i := s.sockets[i].(closing := true)]) else s
  }
  function ClosingCurrent(s: State): State { if s.ws.Some? then Closing(s, s.ws.value) else s }

  /** Whether a close is followed by a reconnect: not after a manual one, a takeover or
      garbage, and after a rejected token once, if a provider can mint another. */
  function AfterClose(s: State, code: int): State {
    if s.manualClose || code == TAKEN_OVER || code == BAD_FIRST_FRAME then s
    else if code == UNAUTHORIZED then
      if !s.login.provider || s.login.retried then s else WithTimer(s.(login := s.login.(retried := true)))
    else WithTimer(s)
  }

  function WithTimer(s: State): State { if s.manualClose then s else s.(timer := true) }

  function RefCount(r: Refs, topic: Topic): nat { if topic in r.subs then r.subs[topic] else 0 }

  function WithHandle(r: Refs, topic: Topic): Refs {
    Refs(r.subs[topic := RefCount(r, topic) + 1], r.handles[r.next := topic], r.next + 1)
  }
  /** A handle called before does nothing; a topic without references goes away. */
  function WithoutHandle(r: Refs, h: int): Refs {
    if h !in r.handles then r
    else
      var topic := r.handles[h];
      Refs(
        if topic !in r.subs then r.subs
        else if r.subs[topic] <= 1 then r.subs - {topic}
        else r.subs[topic := r.subs[topic] - 1],
        r.handles - {h}, r.next)
  }

  function Subscribed(s: State, topic: Topic): State {
    var s1 := s.(refs := WithHandle(s.refs, topic));
    if RefCount(s1.refs, topic) == 1 && s.phase.Open? then SendSubs(s1, {topic}) else s1
  }

  function Unsubscribed(s: State, h: int): State {
    var s1 := s.(refs := WithoutHandle(s.refs, h));
    if h in s.refs.handles && s.refs.handles[h] in s.refs.subs && s.refs.handles[h] !in s1.refs.subs && s.phase.Open? then
      SendUnsub(s1, s.refs.handles[h])
    else s1
  }

  function Flushed(c: Commands): Commands { c.(handed := c.handed + c.queue, queue := []) }
  function Dropped(c: Commands): Commands { c.(refused := c.refused + c.queue, queue := []) }
  function Issued(c: Commands, open: bool, manualClose: bool): Commands {
    if open then c.(handed := c.handed + [c.next], next := c.next + 1)
    else if manualClose then c.(refused := c.refused + [c.next], next := c.next + 1)
    else c.(queue := c.queue + [c.next], next := c.next + 1)
  }

  /** Events that cannot happen in a state change nothing. */
  function Step(s: State, e: Event): State {
    match e
    case Connect => Connected(s)
    case TimerFires => if s.timer then Connected(s.(timer := false)) else s
    case TokenReady => if s.waits == 0 then s else Ready(s.(waits := s.waits - 1))
    case TokenFails =>
      if s.waits == 0 then s else WithTimer(s.(waits := s.waits - 1, phase := Closed))
    case Opens(i) =>
      if i !in s.sockets || s.sockets[i].up || s.sockets[i].closing || s.sockets[i].gone then s
      else
        var s1 := s.(sockets := s.sockets[i := s.sockets[i].(up := true)]);
        if CanSend(s1) then s1.(auths := s1.auths[i := s1.ws.value]) else Closing(s1, i)
    case AuthAcked(i, expires) =>
      if i !in s.auths || !Delivers(s, s.auths[i]) then s
      else
        SendSubs(s.(auths := s.auths - {i}, phase := Open, refresh := expires, login := s.login.(retried := false), cmds := Flushed(s.cmds)), s.refs.subs.Keys)
    case AuthFails(i) =>
      if i !in s.auths then s else Closing(s.(auths := s.auths - {i}), i)
    case Closes(i, code) =>
      if i !in s.sockets || s.sockets[i].gone then s
      else
        var s1 := s.(sockets := s.sockets[i := s.sockets[i].(gone := true)]);
        if s.ws != Some(i) then s1
        else
          var s2 := s1.(ws := None, auths := map[], phase := Closed, refresh := false);
          AfterClose(s2, code)
    case Close =>
      var s1 := s.(manualClose := true, timer := false, refresh := false, cmds := Dropped(s.cmds));
      if s.ws.None? then s1.(phase := Closed) else ClosingCurrent(s1)
    case Sub(topic) => Subscribed(s, topic)
    case Unsub(h) => Unsubscribed(s, h)
    case Cmd => s.(cmds := Issued(s.cmds, s.phase.Open?, s.manualClose))
    case RefreshFires(renewed) =>
      if !s.refresh || renewed then s else ClosingCurrent(s.(refresh := false))
  }

  function RunFrom(s: State, events: seq<Event>): State
    decreases |events|
  {
    if events == [] then s else RunFrom(Step(s, events[0]), events[1..])
  }

  // ── reference counts, over every run ─────────────────────────────────────

  ghost function HandlesOf(handles: map<int, Topic>, topic: Topic): set<int> {
    set h | h in handles && handles[h] == topic
  }
  ghost predicate RefsHold(r: Refs, topic: Topic) {
    && (forall h :: h in r.handles ==> h < r.next)
    && (if topic in r.subs then r.subs[topic] > 0 && r.subs[topic] == |HandlesOf(r.handles, topic)|
        else HandlesOf(r.handles, topic) == {})
  }

  lemma OneHandleMore(handles: map<int, Topic>, h: int, t: Topic, topic: Topic)
    requires h !in handles
    ensures t == topic ==> HandlesOf(handles[h := t], topic) == HandlesOf(handles, topic) + {h}
    ensures t != topic ==> HandlesOf(handles[h := t], topic) == HandlesOf(handles, topic)
    ensures |HandlesOf(handles[h := t], topic)| == |HandlesOf(handles, topic)| + if t == topic then 1 else 0
  {
    assert h !in HandlesOf(handles, topic);
  }

  lemma OneHandleLess(handles: map<int, Topic>, h: int, topic: Topic)
    requires h in handles
    ensures HandlesOf(handles - {h}, topic) == HandlesOf(handles, topic) - {h}
    ensures handles[h] == topic ==> h in HandlesOf(handles, topic)
    ensures |HandlesOf(handles - {h}, topic)| == |HandlesOf(handles, topic)| - if handles[h] == topic then 1 else 0
  {
  }

  lemma SubKeepsRefs(r: Refs, t: Topic, topic: Topic)
    requires RefsHold(r, topic)
    ensures RefsHold(WithHandle(r, t), topic)
  {
    OneHandleMore(r.handles, r.next, t, topic);
  }

  lemma UnsubKeepsRefs(r: Refs, h: int, topic: Topic)
    requires RefsHold(r, topic)
    ensures RefsHold(WithoutHandle(r, h), topic)
  {
    if h in r.handles {
      OneHandleLess(r.handles, h, topic);
    }
  }

  lemma RefsAfter(s: State, e: Event)
    ensures Step(s, e).refs == match e case Sub(t) => WithHandle(s.refs, t) case Unsub(h) => WithoutHandle(s.refs, h) case _ => s.refs
  {
  }

  lemma {:induction false} RunKeepsRefs(s: State, events: seq<Event>, topic: Topic)
    requires RefsHold(s.refs, topic)
    ensures RefsHold(RunFrom(s, events).refs, topic)
    decreases |events|
  {
    if events != [] {
      RefsAfter(s, events[0]);
      match events[0] {
        case Sub(t) => SubKeepsRefs(s.refs, t, topic);
        case Unsub(h) => UnsubKeepsRefs(s.refs, h, topic);
        case _ =>
      }
      RunKeepsRefs(Step(s, events[0]), events[1..], topic);
    }
  }

  /** A topic's count is the number of its unsubscribe functions not called yet; repeated
      calls of one change nothing. */
  lemma RefsCountOpenHandles(provider: bool, events: seq<Event>, topic: Topic)
    ensures var r := RunFrom(Fresh(provider), events).refs;
            RefCount(r, topic) == |HandlesOf(r.handles, topic)| && (topic in r.subs <==> HandlesOf(r.handles, topic) != {})
  {
    assert HandlesOf(Fresh(provider).refs.handles, topic) == {};
    RunKeepsRefs(Fresh(provider), events, topic);
  }

  // ── the frames and the counts agree ──────────────────────────────────────

  /** While open, the frames sent on the current connection subscribe exactly the topics
      with a reference. */
  predicate InSync(s: State) {
    s.phase.Open? ==> s.ws.Some? && View(s) == s.refs.subs.Keys
  }

  /** No connection attempt is under way: no token awaited, no socket at hand. */
  predicate Alone(s: State) { s.waits == 0 && s.ws.None? }
  /** What a caller of connect() would have to check. */
  predicate MayConnect(s: State) { Proceeds(s) ==> Alone(s) }

  /** The application's connect() calls all keep to it. */
  ghost predicate Calm(s: State, events: seq<Event>)
    decreases |events|
  {
    events == [] || ((events[0].Connect? ==> MayConnect(s)) && Calm(Step(s, events[0]), events[1..]))
  }

  ghost predicate OneAttempt(s: State) {
    && s.waits <= 1
    && (s.ws.Some? ==> s.waits == 0 && s.ws.value in s.sockets && !s.sockets[s.ws.value].gone)
    && (forall i :: i in s.sockets ==> i < s.nextSocket && (s.sockets[i].gone || s.ws == Some(i)))
    && (forall i :: i in s.auths ==> s.ws == Some(i) && s.auths[i] == i && s.sockets[i].up)
    && (s.phase.Idle? ==> Alone(s))
    && (s.phase.Open? ==> CanSend(s) && s.auths == map[] && View(s) == s.refs.subs.Keys)
    && (!s.phase.Open? ==> View(s) == {} && !s.refresh)
    && (s.timer ==> s.phase.Closed? && Alone(s))
    && (!s.login.provider ==> s.waits == 0 && (Proceeds(s) ==> s.ws.None?))
  }

  lemma CalmSub(s: State, t: Topic)
    requires OneAttempt(s)
    ensures OneAttempt(Subscribed(s, t))
  {
    if s.phase.Open? {
      assert View(Subscribed(s, t)) == Subscribed(s, t).refs.subs.Keys;
    }
  }

  lemma CalmUnsub(s: State, h: int)
    requires OneAttempt(s)
    ensures OneAttempt(Unsubscribed(s, h))
  {
    if h in s.refs.handles && s.phase.Open? {
      assert View(Unsubscribed(s, h)) == Unsubscribed(s, h).refs.subs.Keys;
    }
  }

  lemma CalmClose(s: State, i: int, code: int)
    requires OneAttempt(s)
    ensures OneAttempt(Step(s, Closes(i, code)))
  {
  }

  lemma CalmOpen(s: State, i: int)
    requires OneAttempt(s)
    ensures OneAttempt(Step(s, Opens(i)))
  {
  }

  lemma CalmAck(s: State, i: int, expires: bool)
    requires OneAttempt(s)
    ensures OneAttempt(Step(s, AuthAcked(i, expires)))
  {
  }

  lemma CalmConnect(s: State)
    requires OneAttempt(s) && MayConnect(s)
    ensures OneAttempt(Connected(s))
  {
  }

  lemma CalmToken(s: State)
    requires OneAttempt(s)
    ensures OneAttempt(Step(s, TokenReady)) && OneAttempt(Step(s, TokenFails))
  {
  }

  lemma CalmStep(s: State, e: Event)
    requires OneAttempt(s) && (e.Connect? ==> MayConnect(s))
    ensures OneAttempt(Step(s, e))
  {
    match e
    case Connect => CalmConnect(s);
    case TimerFires => if s.timer { CalmConnect(s.(timer := false)); }
    case TokenReady => CalmToken(s);
    case TokenFails => CalmToken(s);
    case Sub(t) => CalmSub(s, t);
    case Unsub(h) => CalmUnsub(s, h);
    case Closes(i, code) => CalmClose(s, i, code);
    case Opens(i) => CalmOpen(s, i);
    case AuthAcked(i, expires) => CalmAck(s, i, expires);
    case _ =>
  }

  lemma {:induction false} CalmRun(s: State, events: seq<Event>)
    requires OneAttempt(s) && Calm(s, events)
    ensures OneAttempt(RunFrom(s, events))
    decreases |events|
  {
    if events != [] {
      CalmStep(s, events[0]);
      CalmRun(Step(s, events[0]), events[1..]);
    }
  }

  /** While open, frames and counts agree, over any run of subscriptions, repeated
      unsubscribes, drops and reconnects in which connect() is not called while an earlier
      attempt is still under way. The reconnect timer never does that. */
  lemma OpenMeansInSync(provider: bool, events: seq<Event>)
    requires Calm(Fresh(provider), events)
    ensures InSync(RunFrom(Fresh(provider), events))
    ensures RunFrom(Fresh(provider), events).timer ==> Alone(RunFrom(Fresh(provider), events))
  {
    CalmRun(Fresh(provider), events);
  }

  /** The steps after which an open client is out of sync, readable before them: a second
      token while topics are subscribed; an ack while the current socket is missing, holds
      topics no longer wanted, or cannot take the frames; a subscription or its end that the
      current socket cannot be sent. */
  predicate Breaks(s: State, e: Event) {
    match e
    case TokenReady => s.waits > 0 && s.phase.Open? && s.refs.subs != map[]
    case AuthAcked(i, _) =>
      i in s.auths && Delivers(s, s.auths[i])
      && (s.ws.None? || (if CanSend(s) then !(View(s) <= s.refs.subs.Keys) else View(s) != s.refs.subs.Keys))
    case Sub(topic) => s.phase.Open? && topic !in s.refs.subs && !CanSend(s)
    case Unsub(h) =>
      s.phase.Open? && !CanSend(s) && h in s.refs.handles && s.refs.handles[h] in s.refs.subs
      && s.refs.subs[s.refs.handles[h]] <= 1
    case _ => false
  }

  /** From a well-formed state in sync, these are exactly the steps that break it. */
  lemma StepStaysInSyncIff(s: State, e: Event)
    requires WellFormed(s) && InSync(s)
    ensures InSync(Step(s, e)) <==> !Breaks(s, e)
  {
    match e
    case Sub(topic) => SubInSyncIff(s, topic);
    case Unsub(h) => UnsubInSyncIff(s, h);
    case AuthAcked(i, expires) => AckInSyncIff(s, i, expires);
    case _ =>
  }

  lemma SubInSyncIff(s: State, topic: Topic)
    requires WellFormed(s) && InSync(s)
    ensures InSync(Subscribed(s, topic)) <==> !Breaks(s, Sub(topic))
  {
    var s' := Subscribed(s, topic);
    if s.phase.Open? {
      assert s'.refs.subs.Keys == s.refs.subs.Keys + {topic};
      assert topic in s.refs.subs ==> s.refs.subs.Keys + {topic} == s.refs.subs.Keys;
      assert topic !in s.refs.subs && !CanSend(s) ==> topic !in View(s');
    }
  }

  lemma UnsubInSyncIff(s: State, h: int)
    requires WellFormed(s) && InSync(s)
    ensures InSync(Unsubscribed(s, h)) <==> !Breaks(s, Unsub(h))
  {
    var s' := Unsubscribed(s, h);
    if s.phase.Open? && h in s.refs.handles && s.refs.handles[h] in s.refs.subs {
      var topic := s.refs.handles[h];
      assert s'.refs.subs.Keys == if s.refs.subs[topic] <= 1 then s.refs.subs.Keys - {topic} else s.refs.subs.Keys;
      assert s.refs.subs[topic] <= 1 && !CanSend(s) ==> topic in View(s');
    }
  }

  lemma AckInSyncIff(s: State, i: int, expires: bool)
    requires WellFormed(s) && InSync(s)
    ensures InSync(Step(s, AuthAcked(i, expires))) <==> !Breaks(s, AuthAcked(i, expires))
  {
    if i in s.auths && Delivers(s, s.auths[i]) && CanSend(s) {
      assert View(Step(s, AuthAcked(i, expires))) == View(s) + s.refs.subs.Keys;
    }
  }

  ghost predicate NothingBreaks(s: State, events: seq<Event>)
    decreases |events|
  {
    events == [] || (!Breaks(s, events[0]) && NothingBreaks(Step(s, events[0]), events[1..]))
  }
  ghost predicate InSyncThroughout(s: State, events: seq<Event>)
    decreases |events|
  {
    InSync(s) && (events == [] || InSyncThroughout(Step(s, events[0]), events[1..]))
  }

  lemma {:induction false} SyncRun(s: State, events: seq<Event>)
    requires WellFormed(s) && InSync(s)
    ensures InSyncThroughout(s, events) <==> NothingBreaks(s, events)
    decreases |events|
  {
    if events != [] {
      WellFormedStep(s, events[0]);
      StepStaysInSyncIff(s, events[0]);
      if InSync(Step(s, events[0])) {
        SyncRun(Step(s, events[0]), events[1..]);
      }
    }
  }

  /** Any run whatever is in sync all along if and only if it has no such step. */
  lemma InSyncThroughoutIff(provider: bool, events: seq<Event>)
    ensures InSyncThroughout(Fresh(provider), events) <==> NothingBreaks(Fresh(provider), events)
  {
    SyncRun(Fresh(provider), events);
  }

  lemma {:induction false} FixedTokenIsCalm(s: State, events: seq<Event>)
    requires OneAttempt(s) && !s.login.provider
    ensures Calm(s, events)
    decreases |events|
  {
    if events != [] {
      CalmStep(s, events[0]);
      ProviderStep(s, events[0]);
      FixedTokenIsCalm(Step(s, events[0]), events[1..]);
    }
  }

  /** With a fixed token no attempt ever overlaps another, so every run is in sync and
      every close() is for good. */
  lemma FixedTokenIsSafe(events: seq<Event>)
    ensures InSync(RunFrom(Fresh(false), events))
    ensures StaysShut(Step(RunFrom(Fresh(false), events), Close))
  {
    FixedTokenIsCalm(Fresh(false), events);
    CalmRun(Fresh(false), events);
    ProviderStays(Fresh(false), events);
    CloseIsFinalWhenCalm(false, events);
  }

  lemma ProviderStep(s: State, e: Event)
    ensures Step(s, e).login.provider == s.login.provider
  {
    match e
    case Closes(i, code) =>
    case AuthAcked(i, expires) =>
    case Sub(topic) =>
    case Unsub(h) =>
    case _ =>
  }

  lemma {:induction false} ProviderStays(s: State, events: seq<Event>)
    ensures RunFrom(s, events).login.provider == s.login.provider
    decreases |events|
  {
    if events != [] {
      ProviderStep(s, events[0]);
      ProviderStays(Step(s, events[0]), events[1..]);
    }
  }

  // ── and exactly when ─────────────────────────────────────────────────────

  /** From here on the frames and counts agree whatever happens, callers being calm. */
  ghost predicate StaysInSync(s: State) {
    forall more {:trigger RunFrom(s, more)} :: Calm(s, more) ==> InSync(RunFrom(s, more))
  }

  /** An open socket that a second token replaces is out of sync as soon as anything is
      subscribed. */
  lemma LateTokenBreaks(s: State)
    requires s.phase.Open? && s.waits > 0
    ensures !StaysInSync(s)
  {
    var more := [Sub("t"), TokenReady];
    var s1 := Step(s, Sub("t"));
    var s2 := Step(s1, TokenReady);
    assert more[1..] == [TokenReady] && more[1..][1..] == [];
    assert RunFrom(s1, more[1..]) == RunFrom(s2, []) == s2;
    assert RunFrom(s, more) == s2;
    assert Calm(s2, []) && Calm(s1, more[1..]) && Calm(s, more);
    assert "t" in s2.refs.subs && View(s2) == {};
  }

  /** What one harmless event leads to, the state before it could lead to as well. */
  lemma BreaksEarlier(s: State, e: Event)
    requires !e.Connect? && !StaysInSync(Step(s, e))
    ensures !StaysInSync(s)
  {
    var more :| Calm(Step(s, e), more) && !InSync(RunFrom(Step(s, e), more));
    assert ([e] + more)[1..] == more;
    assert RunFrom(s, [e] + more) == RunFrom(Step(s, e), more) && Calm(s, [e] + more);
  }

  /** With a token to spare, a fresh socket can open and be acked. */
  lemma TwoTokensBreak(s: State)
    requires s.waits >= 2
    ensures !StaysInSync(s)
  {
    var i := s.nextSocket;
    var s1 := Step(s, TokenReady);
    var s2 := Step(s1, Opens(i));
    LateTokenBreaks(Step(s2, AuthAcked(i, false)));
    BreaksEarlier(s2, AuthAcked(i, false));
    BreaksEarlier(s1, Opens(i));
    BreaksEarlier(s, TokenReady);
  }

  /** A pending ack of the current socket, with a token still to come. */
  lemma LateAckBreaks(s: State, i: int)
    requires s.waits > 0 && i in s.auths && Delivers(s, s.auths[i])
    ensures !StaysInSync(s)
  {
    LateTokenBreaks(Step(s, AuthAcked(i, false)));
    BreaksEarlier(s, AuthAcked(i, false));
  }

  lemma SecondAttemptBreaks(s: State)
    requires OneAttempt(s) && Proceeds(s) && !Alone(s)
    ensures !StaysInSync(Connected(s))
  {
    var c := Connected(s);
    if s.ws.None? {
      TwoTokensBreak(c);
    } else {
      var i := s.ws.value;
      if !s.sockets[i].up && !s.sockets[i].closing {
        LateAckBreaks(Step(c, Opens(i)), i);
        BreaksEarlier(c, Opens(i));
      } else if i in s.auths && !s.sockets[i].closing {
        LateAckBreaks(c, i);
      } else {
        var c1 := Step(c, Closes(i, ABNORMAL));
        TwoTokensBreak(Step(c1, TimerFires));
        BreaksEarlier(c1, TimerFires);
        BreaksEarlier(c, Closes(i, ABNORMAL));
      }
    }
  }

  /** After any calm run, calling connect() keeps frames and counts in agreement for good
      if and only if the call does nothing or no attempt is under way. */
  lemma ConnectIsSafeIff(provider: bool, events: seq<Event>)
    requires Calm(Fresh(provider), events)
    ensures var s := RunFrom(Fresh(provider), events);
            StaysInSync(Step(s, Connect)) <==> MayConnect(s)
  {
    var s := RunFrom(Fresh(provider), events);
    CalmRun(Fresh(provider), events);
    if MayConnect(s) {
      CalmStep(s, Connect);
      forall more | Calm(Step(s, Connect), more) ensures InSync(RunFrom(Step(s, Connect), more)) {
        CalmRun(Step(s, Connect), more);
      }
    } else {
      SecondAttemptBreaks(s);
    }
  }

  /** Closing while the token is awaited leaves the attempt running, so connecting again
      right away is such a call. */
  lemma CloseThenConnectBreaks()
    ensures var s := RunFrom(Fresh(true), [Connect, Close]);
            Calm(Fresh(true), [Connect, Close]) && !MayConnect(s) && !StaysInSync(Step(s, Connect))
  {
    var events := [Connect, Close];
    assert events[1..] == [Close] && events[1..][1..] == [];
    var s1 := Step(Fresh(true), Connect);
    var s2 := Step(s1, Close);
    assert RunFrom(s1, events[1..]) == RunFrom(s2, []) == s2 && RunFrom(Fresh(true), events) == s2;
    assert Calm(s2, []) && Calm(s1, events[1..]) && Calm(Fresh(true), events);
    ConnectIsSafeIff(true, events);
  }

  // ── when close() is final ────────────────────────────────────────────────

  ghost predicate NoConnect(events: seq<Event>) {
    forall i :: 0 <= i < |events| ==> !events[i].Connect?
  }

  /** Unless connect() is called, the client is not open again: what is open stays so at
      most until the close event of that very socket. */
  ghost predicate StaysShut(s: State) {
    forall more {:trigger RunFrom(s, more)} ::
      NoConnect(more) && RunFrom(s, more).phase.Open? ==> s.phase.Open? && RunFrom(s, more).ws == s.ws
  }

  /** What holds in every state of every run, calm or not. */
  ghost predicate WellFormed(s: State) {
    && (forall i :: i in s.sockets ==> i < s.nextSocket)
    && (s.ws.Some? ==> s.ws.value in s.sockets)
    && (forall i :: i in s.auths ==> i in s.sockets && s.auths[i] in s.sockets && s.sockets[s.auths[i]].up)
    && (s.ws.None? ==> s.auths == map[])
    && (s.phase.Open? ==> s.ws.Some?)
  }

  /** One socket changes, and does not go down. */
  lemma SocketKeepsForm(s: State, i: int, c: Conn)
    requires WellFormed(s) && i in s.sockets && (s.sockets[i].up ==> c.up)
    ensures WellFormed(s.(sockets := s.sockets[i := c]))
  {
  }

  lemma OpenKeepsForm(s: State, i: int)
    requires WellFormed(s)
    ensures WellFormed(Step(s, Opens(i)))
  {
    if i in s.sockets {
      SocketKeepsForm(s, i, s.sockets[i].(up := true));
      var s1 := s.(sockets := s.sockets[i := s.sockets[i].(up := true)]);
      SocketKeepsForm(s1, i, s1.sockets[i].(closing := true));
    }
  }

  lemma EndKeepsForm(s: State, i: int, code: int)
    requires WellFormed(s)
    ensures WellFormed(Step(s, Closes(i, code))) && WellFormed(Step(s, AuthFails(i)))
  {
  }

  lemma AckKeepsForm(s: State, i: int, expires: bool)
    requires WellFormed(s)
    ensures WellFormed(Step(s, AuthAcked(i, expires)))
  {
  }

  lemma SubKeepsForm(s: State, topic: Topic)
    requires WellFormed(s)
    ensures WellFormed(Subscribed(s, topic))
  {
  }

  lemma UnsubKeepsForm(s: State, h: int)
    requires WellFormed(s)
    ensures WellFormed(Unsubscribed(s, h))
  {
  }

  lemma CloseKeepsForm(s: State, renewed: bool)
    requires WellFormed(s)
    ensures WellFormed(Step(s, Close)) && WellFormed(Step(s, RefreshFires(renewed)))
  {
  }

  lemma ConnectKeepsForm(s: State)
    requires WellFormed(s)
    ensures WellFormed(Connected(s)) && WellFormed(Step(s, TokenReady)) && WellFormed(Step(s, TokenFails))
  {
  }

  lemma WellFormedStep(s: State, e: Event)
    requires WellFormed(s)
    ensures WellFormed(Step(s, e))
  {
    match e
    case Connect => ConnectKeepsForm(s);
    case TimerFires => ConnectKeepsForm(s.(timer := false));
    case TokenReady => ConnectKeepsForm(s);
    case TokenFails => ConnectKeepsForm(s);
    case Sub(topic) => SubKeepsForm(s, topic);
    case Unsub(h) => UnsubKeepsForm(s, h);
    case Close => CloseKeepsForm(s, true);
    case RefreshFires(renewed) => CloseKeepsForm(s, renewed);
    case Opens(i) => OpenKeepsForm(s, i);
    case Closes(i, code) => EndKeepsForm(s, i, code);
    case AuthFails(i) => EndKeepsForm(s, i, ABNORMAL);
    case AuthAcked(i, expires) => AckKeepsForm(s, i, expires);
    case _ =>
  }

  lemma {:induction false} WellFormedRun(s: State, events: seq<Event>)
    requires WellFormed(s)
    ensures WellFormed(RunFrom(s, events))
    decreases |events|
  {
    if events != [] {
      WellFormedStep(s, events[0]);
      WellFormedRun(Step(s, events[0]), events[1..]);
    }
  }

  /** The ack of this auth request can still arrive. */
  predicate AckCanArrive(s: State, i: int) { i in s.auths && Delivers(s, s.auths[i]) }

  /** Nothing under way can bring the client open: no token is awaited, and no ack can
      arrive by a socket other than the one close() is about to close. */
  ghost predicate NothingUnderWay(s: State) {
    s.waits == 0 && (s.phase.Open? || forall i :: AckCanArrive(s, i) ==> s.ws == Some(s.auths[i]))
  }

  /** After a final close(). */
  ghost predicate Shut(s: State) {
    && WellFormed(s) && s.waits == 0 && !s.timer && s.manualClose
    && (s.ws.Some? ==> s.sockets[s.ws.value].closing)
    && (s.phase.Open? || forall i :: !AckCanArrive(s, i))
  }

  /** No ack is brought about that could not arrive before. */
  lemma NoNewAck(s: State, e: Event, j: int)
    requires Shut(s) && !e.Connect? && AckCanArrive(Step(s, e), j)
    ensures AckCanArrive(s, j)
  {
    match e
    case Opens(i) =>
    case AuthAcked(i, expires) =>
    case AuthFails(i) =>
    case Closes(i, code) =>
    case _ =>
  }

  lemma ShutStep(s: State, e: Event)
    requires Shut(s) && !e.Connect?
    ensures Shut(Step(s, e)) && (Step(s, e).phase.Open? ==> s.phase.Open? && Step(s, e).ws == s.ws)
  {
    var s' := Step(s, e);
    WellFormedStep(s, e);
    forall j | AckCanArrive(s', j) ensures AckCanArrive(s, j) {
      NoNewAck(s, e, j);
    }
    if e.AuthAcked? {
      assert AckCanArrive(s, e.i) || s' == s;
    }
  }

  lemma {:induction false} ShutRun(s: State, more: seq<Event>)
    requires Shut(s) && NoConnect(more)
    ensures RunFrom(s, more).phase.Open? ==> s.phase.Open? && RunFrom(s, more).ws == s.ws
    decreases |more|
  {
    if more != [] {
      ShutStep(s, more[0]);
      ShutRun(Step(s, more[0]), more[1..]);
    }
  }

  /** The token that was awaited arrives, and its socket opens and is acked. */
  function AwaitedOpens(s: State): seq<Event> {
    [TokenReady, Opens(s.nextSocket), AuthAcked(s.nextSocket, false)]
  }

  lemma AwaitedTokenOpens(s: State)
    requires s.waits > 0
    ensures NoConnect(AwaitedOpens(s)) && RunFrom(s, AwaitedOpens(s)).phase.Open?
    ensures RunFrom(s, AwaitedOpens(s)).ws == Some(s.nextSocket)
  {
    var more := AwaitedOpens(s);
    var s1 := Step(s, more[0]);
    var s2 := Step(s1, more[1]);
    var s3 := Step(s2, more[2]);
    assert more[1..] == [more[1], more[2]] && more[1..][1..] == [more[2]] && more[1..][1..][1..] == [];
    assert RunFrom(s2, more[1..][1..]) == RunFrom(s3, []) == s3;
    assert RunFrom(s1, more[1..]) == s3;
  }

  lemma NotShutWhileUnderWay(s: State)
    requires WellFormed(s) && !NothingUnderWay(s)
    ensures !StaysShut(Step(s, Close))
  {
    var c := Step(s, Close);
    if s.waits > 0 {
      AwaitedTokenOpens(c);
    } else {
      var i :| AckCanArrive(s, i) && s.ws != Some(s.auths[i]);
      var more := [AuthAcked(i, false)];
      assert AckCanArrive(c, i) && more[1..] == [];
      assert RunFrom(c, more) == RunFrom(Step(c, more[0]), []) == Step(c, more[0]);
      assert NoConnect(more) && RunFrom(c, more).phase.Open?;
    }
  }

  /** After any run whatever, close() is for good if and only if no token is awaited and,
      unless the client is open, no auth ack can arrive by a socket other than the current
      one. */
  lemma CloseIsFinalIff(provider: bool, events: seq<Event>)
    ensures var s := RunFrom(Fresh(provider), events);
            StaysShut(Step(s, Close)) <==> NothingUnderWay(s)
  {
    var s := RunFrom(Fresh(provider), events);
    var c := Step(s, Close);
    WellFormedRun(Fresh(provider), events);
    if NothingUnderWay(s) {
      WellFormedStep(s, Close);
      forall more | NoConnect(more) && RunFrom(c, more).phase.Open?
        ensures c.phase.Open? && RunFrom(c, more).ws == c.ws
      {
        ShutRun(c, more);
      }
    } else {
      NotShutWhileUnderWay(s);
    }
  }

  /** After a calm run there is only one socket, so the token alone decides. */
  lemma CloseIsFinalWhenCalm(provider: bool, events: seq<Event>)
    requires Calm(Fresh(provider), events)
    ensures var s := RunFrom(Fresh(provider), events);
            StaysShut(Step(s, Close)) <==> s.waits == 0
  {
    CalmRun(Fresh(provider), events);
    CloseIsFinalIff(provider, events);
  }

  /** A closed client comes open by itself. */
  lemma ClosedClientOpens()
    ensures Calm(Fresh(true), [Connect, Close])
    ensures RunFrom(Fresh(true), [Connect, Close, TokenReady, Opens(0), AuthAcked(0, false)]).phase.Open?
  {
    CloseThenConnectBreaks();
    var events := [Connect, Close];
    var s1 := Step(Fresh(true), Connect);
    var s2 := Step(s1, Close);
    AwaitedTokenOpens(s2);
    var all := events + AwaitedOpens(s2);
    assert all == [Connect, Close, TokenReady, Opens(0), AuthAcked(0, false)];
    assert all[1..][1..] == AwaitedOpens(s2);
    assert RunFrom(s1, all[1..]) == RunFrom(s2, AwaitedOpens(s2));
  }

  lemma OneMore(s: State, events: seq<Event>, e: Event)
    ensures RunFrom(s, events + [e]) == Step(RunFrom(s, events), e)
    decreases |events|
  {
    if events == [] {
      assert ([] + [e])[1..] == [] && RunFrom(Step(s, e), []) == Step(s, e);
    } else {
      OneMore(Step(s, events[0]), events[1..], e);
      assert (events + [e])[1..] == events[1..] + [e];
    }
  }

  /** And so does one closed with no token awaited: connected twice around an earlier
      close(), it has a first socket whose ack close() does not reach. */
  function TwoSockets(): seq<Event> { [Connect] + [Close] + [Connect] + [TokenReady] + [Opens(0)] + [TokenReady] }

  lemma StaleAckOpens()
    ensures RunFrom(Fresh(true), TwoSockets()).waits == 0
    ensures RunFrom(Fresh(true), TwoSockets() + [Close] + [AuthAcked(0, false)]).phase.Open?
  {
    var s := Fresh(true);
    var events := [Connect];
    OneMore(s, [], Connect);
    assert [] + [Connect] == [Connect];
    OneMore(s, events, Close);
    OneMore(s, events + [Close], Connect);
    OneMore(s, events + [Close] + [Connect], TokenReady);
    OneMore(s, events + [Close] + [Connect] + [TokenReady], Opens(0));
    OneMore(s, events + [Close] + [Connect] + [TokenReady] + [Opens(0)], TokenReady);
    OneMore(s, TwoSockets(), Close);
    OneMore(s, TwoSockets() + [Close], AuthAcked(0, false));
  }

  // ── rejected tokens ──────────────────────────────────────────────────────

  /** The close of the current socket with a rejected token, answered by a reconnect
      (`RetryIsScheduled`). */
  predicate RetriesToken(s: State, e: Event) {
    e.Closes? && e.code == UNAUTHORIZED && s.ws == Some(e.i) && e.i in s.sockets && !s.sockets[e.i].gone
    && !s.manualClose && s.login.provider && !s.login.retried
  }
  function TokenRetries(s: State, events: seq<Event>): nat
    decreases |events|
  {
    if events == [] then 0
    else (if RetriesToken(s, events[0]) then 1 else 0) + TokenRetries(Step(s, events[0]), events[1..])
  }

  lemma RetryIsScheduled(s: State, i: int)
    requires s.ws == Some(i) && i in s.sockets && !s.sockets[i].gone && !s.timer
    ensures Step(s, Closes(i, UNAUTHORIZED)).timer <==> RetriesToken(s, Closes(i, UNAUTHORIZED))
  {
  }

  lemma LoginAfter(s: State, e: Event)
    requires !e.AuthAcked?
    ensures Step(s, e).login == if RetriesToken(s, e) then s.login.(retried := true) else s.login
  {
    match e
    case Closes(i, code) =>
    case _ =>
  }

  /** Until a token is accepted, at most one rejection leads to a reconnect, and none with a
      fixed token. */
  lemma {:induction false} RejectionRetriesOnce(s: State, events: seq<Event>)
    requires forall i :: 0 <= i < |events| ==> !events[i].AuthAcked?
    ensures TokenRetries(s, events) <= if s.login.provider && !s.login.retried then 1 else 0
    decreases |events|
  {
    if events != [] {
      var s1 := Step(s, events[0]);
      LoginAfter(s, events[0]);
      RejectionRetriesOnce(s1, events[1..]);
    }
  }

  // ── commands ─────────────────────────────────────────────────────────────

  ghost predicate Increasing(s: seq<int>) {
    forall i, j :: 0 <= i < j < |s| ==> s[i] < s[j]
  }

  ghost predicate CmdsHold(c: Commands) {
    && Increasing(c.handed + c.queue)
    && (forall x :: 0 <= x < c.next <==> x in c.handed + c.queue || x in c.refused)
    && (forall x :: x in c.refused ==> x !in c.handed + c.queue)
  }
  /** Nothing is kept where it would not be sent on. */
  ghost predicate NothingKept(s: State) { s.phase.Open? || s.manualClose ==> s.cmds.queue == [] }

  lemma IssueKeepsCmds(c: Commands, open: bool, manualClose: bool)
    requires CmdsHold(c) && (open || manualClose ==> c.queue == [])
    ensures CmdsHold(Issued(c, open, manualClose))
  {
    var c' := Issued(c, open, manualClose);
    var all, all' := c.handed + c.queue, c'.handed + c'.queue;
    forall i | 0 <= i < |all| ensures all[i] < c.next {
      assert all[i] in all;
    }
    if open || !manualClose {
      assert all' == all + [c.next];
      assert forall x :: x in all' <==> x in all || x == c.next;
    } else {
      assert all' == all;
      assert forall x :: x in c'.refused <==> x in c.refused || x == c.next;
    }
  }

  lemma FlushKeepsCmds(c: Commands)
    requires CmdsHold(c)
    ensures CmdsHold(Flushed(c)) && CmdsHold(Dropped(c))
  {
    assert Flushed(c).handed + Flushed(c).queue == c.handed + c.queue;
    var all, left := c.handed + c.queue, Dropped(c).handed + Dropped(c).queue;
    assert left == c.handed;
    forall i, j | 0 <= i < j < |left| ensures left[i] < left[j] {
      assert all[i] < all[j];
    }
    forall x ensures x in all <==> x in c.handed || x in c.queue {}
    forall x | x in c.queue ensures x !in c.handed {
      KeptIsLater(c, x);
    }
  }

  lemma KeptIsLater(c: Commands, x: int)
    requires CmdsHold(c) && x in c.queue
    ensures x !in c.handed
  {
    var all := c.handed + c.queue;
    var i :| 0 <= i < |c.queue| && c.queue[i] == x;
    assert all[|c.handed| + i] == x;
    assert forall j :: 0 <= j < |c.handed| ==> all[j] == c.handed[j];
  }

  lemma CmdsAfter(s: State, e: Event)
    requires NothingKept(s)
    ensures NothingKept(Step(s, e))
    ensures Step(s, e).cmds in {s.cmds, Flushed(s.cmds), Dropped(s.cmds), Issued(s.cmds, s.phase.Open?, s.manualClose)}
  {
    match e
    case AuthAcked(i, expires) =>
    case Close =>
    case Cmd =>
    case _ => assert Step(s, e).cmds == s.cmds;
  }

  lemma {:induction false} CmdRun(s: State, events: seq<Event>)
    requires CmdsHold(s.cmds) && NothingKept(s)
    ensures CmdsHold(RunFrom(s, events).cmds) && NothingKept(RunFrom(s, events))
    decreases |events|
  {
    if events != [] {
      CmdsAfter(s, events[0]);
      FlushKeepsCmds(s.cmds);
      IssueKeepsCmds(s.cmds, s.phase.Open?, s.manualClose);
      CmdRun(Step(s, events[0]), events[1..]);
    }
  }

  /** Over every run each command issued is in exactly one place: handed over, kept, or
      refused. Commands are handed over in the order they were issued, and nothing is
      kept while the client is open or manually closed. */
  lemma CommandsSettleOnceInOrder(provider: bool, events: seq<Event>, x: int)
    ensures var s := RunFrom(Fresh(provider), events);
            var c := s.cmds;
            && (0 <= x < c.next <==> x in c.handed || x in c.queue || x in c.refused)
            && !(x in c.handed && x in c.queue) && !(x in c.handed && x in c.refused) && !(x in c.queue && x in c.refused)
            && Increasing(c.handed)
            && (s.phase.Open? || s.manualClose ==> c.queue == [])
  {
    CmdRun(Fresh(provider), events);
    var c := RunFrom(Fresh(provider), events).cmds;
    assert x in c.handed + c.queue <==> x in c.handed || x in c.queue;
    if x in c.queue {
      KeptIsLater(c, x);
    }
    forall i, j | 0 <= i < j < |c.handed| ensures c.handed[i] < c.handed[j] {
      assert (c.handed + c.queue)[i] < (c.handed + c.queue)[j];
    }
  }

  lemma NoSubs(s: State)
    ensures SendSubs(s, {}) == s
  {
    assert View(s) + {} == View(s);
  }

  lemma MoreSubs(s: State, sent: set<Topic>, topic: Topic)
    ensures SendSubs(SendSubs(s, sent), {topic}) == SendSubs(s, sent + {topic})
  {
    assert View(s) + sent + {topic} == View(s) + (sent + {topic});
  }

  // ── the object ───────────────────────────────────────────────────────────

  /** The socket's own fields; what the browser and the timers hold is in `rest`. */
  class OpnSocket {
    var phase: Phase
    var ws: Option<int>
    var manualClose: bool
    var timer: bool
    var refresh: bool
    var login: Login
    /** Tells one WebSocket from another. */
    var nextSocket: int
    var subs: map<Topic, nat>
    var queue: seq<int>
    /** Everything outside the object: awaited tokens, sockets, open handles, what became
        of the commands. */
    ghost var rest: State

    ghost function Abstract(): State
      reads this
    {
      rest.(phase := phase, ws := ws, manualClose := manualClose, timer := timer, refresh := refresh,
            login := login, refs := rest.refs.(subs := subs), cmds := rest.cmds.(queue := queue),
            nextSocket := nextSocket)
    }

    constructor (provider: bool)
      ensures Abstract() == Fresh(provider)
    {
      phase, ws, manualClose, timer, refresh, login := Idle, None, false, false, false, Login(provider, false);
      nextSocket, subs, queue, rest := 0, map[], [], Fresh(provider);
    }

    method ConnectCall()
      modifies this
      ensures Abstract() == Step(old(Abstract()), Connect)
    {
      if phase.Connecting? || phase.Open? {
        return;
      }
      manualClose, timer, phase := false, false, Connecting;
      if login.provider {
        rest := rest.(waits := rest.waits + 1);
      } else {
        rest := rest.(sockets := rest.sockets[nextSocket := Conn(false, false, false, {})]);
        ws, nextSocket := Some(nextSocket), nextSocket + 1;
      }
    }

    method CloseCall()
      modifies this
      ensures Abstract() == Step(old(Abstract()), Close)
    {
      manualClose, timer, refresh := true, false, false;
      var q := queue;
      queue := [];
      ghost var before := rest.cmds.refused;
      for i := 0 to |q|
        invariant rest == old(rest).(cmds := old(rest).cmds.(refused := before + q[..i]))
        invariant phase == old(phase) && ws == old(ws) && subs == old(subs)
        invariant manualClose && !timer && !refresh && queue == [] && login == old(login) && nextSocket == old(nextSocket)
      {
        rest := rest.(cmds := rest.cmds.(refused := rest.cmds.refused + [q[i]]));
        assert q[..i + 1] == q[..i] + [q[i]];
      }
      assert q[..|q|] == q;
      if ws.Some? {
        rest := rest.(sockets := ClosingCurrent(Abstract()).sockets);
      } else {
        phase := Closed;
      }
    }

    /** `id` numbers the command. */
    method CmdCall(id: int)
      requires id == rest.cmds.next
      modifies this
      ensures Abstract() == Step(old(Abstract()), Cmd)
    {
      rest := rest.(cmds := rest.cmds.(next := id + 1));
      if phase.Open? {
        rest := rest.(cmds := rest.cmds.(handed := rest.cmds.handed + [id]));
      } else if manualClose {
        rest := rest.(cmds := rest.cmds.(refused := rest.cmds.refused + [id]));
      } else {
        queue := queue + [id];
      }
    }

    /** The frame goes to the current socket, if that has opened. */
    method SendSub(topic: Topic)
      modifies this`rest
      ensures Abstract() == SendSubs(old(Abstract()), {topic})
    {
      if CanSend(Abstract()) {
        rest := rest.(sockets := WithView(Abstract(), View(Abstract()) + {topic}).sockets);
      }
    }
    method SendUnsubFrame(topic: Topic)
      modifies this`rest
      ensures Abstract() == SendUnsub(old(Abstract()), topic)
    {
      if CanSend(Abstract()) {
        rest := rest.(sockets := WithView(Abstract(), View(Abstract()) - {topic}).sockets);
      }
    }

    method AddRef(topic: Topic) returns (ghost handle: int)
      modifies this`subs, this`rest
      ensures Abstract() == old(Abstract()).(refs := WithHandle(old(Abstract()).refs, topic))
      ensures handle == old(rest).refs.next
    {
      if topic !in subs {
        subs := subs[topic := 0];
      }
      subs := subs[topic := subs[topic] + 1];
      handle := rest.refs.next;
      rest := rest.(refs := rest.refs.(handles := rest.refs.handles[handle := topic], next := handle + 1));
      assert Abstract().refs == WithHandle(old(Abstract()).refs, topic);
    }

    method SubCall(topic: Topic) returns (ghost handle: int)
      modifies this
      ensures Abstract() == Step(old(Abstract()), Sub(topic)) && handle == old(Abstract()).refs.next
    {
      handle := AddRef(topic);
      if subs[topic] == 1 && phase.Open? {
        SendSub(topic);
      }
    }

    /** The returned closure; `done` says whether it ran before. */
    method UnsubCall(topic: Topic, ghost handle: int, done: bool)
      requires done <==> handle !in rest.refs.handles
      requires !done ==> rest.refs.handles[handle] == topic
      modifies this
      ensures Abstract() == Step(old(Abstract()), Unsub(handle))
    {
      if done {
        return;
      }
      rest := rest.(refs := rest.refs.(handles := rest.refs.handles - {handle}));
      if topic !in subs {
        return;
      }
      if subs[topic] <= 1 {
        subs := subs - {topic};
        if phase.Open? {
          SendUnsubFrame(topic);
        }
      } else {
        subs := subs[topic := subs[topic] - 1];
      }
    }

    /** One sub frame per topic. */
    method Resubscribe()
      modifies this`rest
      ensures Abstract() == SendSubs(old(Abstract()), subs.Keys)
    {
      ghost var before := Abstract();
      var todo := subs.Keys;
      ghost var sent: set<Topic> := {};
      NoSubs(before);
      while todo != {}
        invariant sent + todo == subs.Keys
        invariant Abstract() == SendSubs(before, sent)
        decreases |todo|
      {
        var topic :| topic in todo;
        MoreSubs(before, sent, topic);
        SendSub(topic);
        todo, sent := todo - {topic}, sent + {topic};
      }
    }

    /** Hands over what was kept, oldest first. */
    method Flush()
      modifies this
      ensures Abstract() == old(Abstract()).(cmds := Flushed(old(Abstract()).cmds))
    {
      var q := queue;
      queue := [];
      ghost var before := Abstract();
      for k := 0 to |q|
        invariant Abstract() == before.(cmds := before.cmds.(handed := before.cmds.handed + q[..k]))
      {
        rest := rest.(cmds := rest.cmds.(handed := rest.cmds.handed + [q[k]]));
        assert q[..k + 1] == q[..k] + [q[k]];
      }
      assert q[..|q|] == q;
    }

    /** The auth ack's continuation: open, subscribe every topic again, hand over what was
        kept. */
    method Acked(i: int, expires: bool)
      requires i in rest.auths && Delivers(Abstract(), rest.auths[i])
      modifies this
      ensures Abstract() == Step(old(Abstract()), AuthAcked(i, expires))
    {
      ghost var before := Abstract();
      phase, refresh, login := Open, expires, login.(retried := false);
      rest := rest.(auths := rest.auths - {i});
      ghost var acked := before.(auths := before.auths - {i}, phase := Open, refresh := expires, login := before.login.(retried := false));
      assert Abstract() == acked;
      Resubscribe();
      Flush();
    }

    method OnClose(i: int, code: int)
      requires i in rest.sockets && !rest.sockets[i].gone
      modifies this
      ensures Abstract() == Step(old(Abstract()), Closes(i, code))
    {
      rest := rest.(sockets := rest.sockets[i := rest.sockets[i].(gone := true)]);
      if Some(i) != ws {
        return;
      }
      ws, phase, refresh := None, Closed, false;
      rest := rest.(auths := map[]);
      if manualClose || code == TAKEN_OVER || code == BAD_FIRST_FRAME {
        return;
      }
      if code == UNAUTHORIZED {
        if !login.provider || login.retried {
          return;
        }
        login := login.(retried := true);
      }
      timer := true;
    }
  }
}
