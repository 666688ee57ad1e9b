/** What makes the web client reconnect, open and close: the guards written out over the
    state before each event, and the way back after a lost connection. */
module SocketLaws {
  import opened Common
  import opened Socket

  // ── the reconnect timer ──────────────────────────────────────────────────

  /** The close event of the current socket. */
  predicate Loses(s: State, e: Event) { e.Closes? && s.ws == Some(e.i) && e.i in s.sockets && !s.sockets[e.i].gone }

  /** The client is to come back: it was not closed manually, and the connection was lost
      for a reason that is no takeover, no bad first frame, and if it was a rejected token
      there is a provider that has not been asked again; or no token could be had. */
  predicate Arms(s: State, e: Event) {
    && !s.manualClose
    && ((Loses(s, e) && e.code != 4408 && e.code != 4400 && (e.code == 4401 ==> s.login.provider && !s.login.retried))
        || (e.TokenFails? && s.waits > 0))
  }
  /** It is tried, or given up. */
  predicate Disarms(s: State, e: Event) { e.Close? || e.TimerFires? || (e.Connect? && (s.phase.Idle? || s.phase.Closed?)) }

  /** After any event in any state the reconnect timer is armed if and only if the event
      arms it, or it was armed and the event does not disarm it. */
  lemma ReconnectIsScheduledIff(s: State, e: Event)
    ensures Step(s, e).timer <==> Arms(s, e) || (s.timer && !Disarms(s, e))
  {
    match e
    case Closes(i, code) =>
    case Sub(topic) =>
    case Unsub(h) =>
    case AuthAcked(i, expires) =>
    case Opens(i) =>
    case _ =>
  }

  /** For the close of the current socket with no timer pending, either kind of token and
      every code. */
  lemma LostConnectionReconnectsIff(provider: bool, events: seq<Event>, i: int, code: int)
    requires var s := RunFrom(Fresh(provider), events); s.ws == Some(i) && i in s.sockets && !s.sockets[i].gone && !s.timer
    ensures var s := RunFrom(Fresh(provider), events);
            RunFrom(Fresh(provider), events + [Closes(i, code)]).timer <==>
              !s.manualClose && code !in {4408, 4400} && (code == 4401 ==> provider && !s.login.retried)
  {
    ProviderStays(Fresh(provider), events);
    OneMore(Fresh(provider), events, Closes(i, code));
    ReconnectIsScheduledIff(RunFrom(Fresh(provider), events), Closes(i, code));
  }

  // ── coming back ──────────────────────────────────────────────────────────

  /** The timer fires, the token arrives if it must be fetched, the new socket opens and is
      acked. */
  function Comeback(s: State): seq<Event> {
    [TimerFires] + (if s.login.provider then [TokenReady] else []) + [Opens(s.nextSocket), AuthAcked(s.nextSocket, false)]
  }
  function Reopened(s: State): State {
    var i := s.nextSocket;
    s.(phase := Open, ws := Some(i), manualClose := false, timer := false, refresh := false,
       auths := s.auths[i := i] - {i}, login := s.login.(retried := false), nextSocket := i + 1,
       sockets := s.sockets[i := Conn(true, false, false, s.refs.subs.Keys)],
       cmds := s.cmds.(handed := s.cmds.handed + s.cmds.queue, queue := []))
  }

  lemma DialsAgain(s: State)
    requires s.timer && (s.phase.Idle? || s.phase.Closed?)
    ensures var s1 := Step(s, TimerFires);
            var s2 := if s.login.provider then Step(s1, TokenReady) else s1;
            s2 == s.(phase := Connecting, ws := Some(s.nextSocket), manualClose := false, timer := false,
                     nextSocket := s.nextSocket + 1, sockets := s.sockets[s.nextSocket := Conn(false, false, false, {})])
  {
  }

  lemma OpensOnNewSocket(s: State, i: int)
    requires i in s.sockets && s.sockets[i] == Conn(false, false, false, {}) && s.ws == Some(i)
    ensures Step(Step(s, Opens(i)), AuthAcked(i, false))
            == s.(phase := Open, refresh := false, auths := s.auths[i := i] - {i}, login := s.login.(retried := false),
                  sockets := s.sockets[i := Conn(true, false, false, s.refs.subs.Keys)], cmds := Flushed(s.cmds))
  {
    assert {} + s.refs.subs.Keys == s.refs.subs.Keys;
  }

  /** An armed client which is down comes open again as soon as the network lets it: on a new
      socket, with exactly the topics still referenced subscribed, and with the commands
      kept meanwhile handed over in order. */
  lemma ArmedClientComesBack(s: State)
    requires s.timer && (s.phase.Idle? || s.phase.Closed?)
    ensures RunFrom(s, Comeback(s)) == Reopened(s)
    ensures RunFrom(s, Comeback(s)).phase.Open? && InSync(RunFrom(s, Comeback(s)))
  {
    var i := s.nextSocket;
    var s1 := Step(s, TimerFires);
    var s2 := if s.login.provider then Step(s1, TokenReady) else s1;
    DialsAgain(s);
    OpensOnNewSocket(s2, i);
    var first, last := (if s.login.provider then [TimerFires, TokenReady] else [TimerFires]), [Opens(i), AuthAcked(i, false)];
    assert Comeback(s) == first + last;
    RunThen(s, first, last);
    RunTwo(s2, Opens(i), AuthAcked(i, false));
    if s.login.provider {
      RunTwo(s, TimerFires, TokenReady);
    } else {
      assert RunFrom(s, [TimerFires]) == RunFrom(s1, []);
    }
  }

  lemma {:induction false} RunThen(s: State, events: seq<Event>, more: seq<Event>)
    ensures RunFrom(s, events + more) == RunFrom(RunFrom(s, events), more)
    decreases |events|
  {
    if events == [] {
      assert events + more == more;
    } else {
      RunThen(Step(s, events[0]), events[1..], more);
      assert (events + more)[1..] == events[1..] + more;
    }
  }
  lemma RunTwo(s: State, d: Event, e: Event)
    ensures RunFrom(s, [d, e]) == Step(Step(s, d), e)
  {
    assert [d, e][1..] == [e];
    assert RunFrom(Step(s, d), [e]) == RunFrom(Step(Step(s, d), e), []);
  }

  /** End to end, for either kind of token: an open client that loses its connection for any
      reason but those four comes back in sync. */
  lemma LostConnectionComesBack(provider: bool, events: seq<Event>, i: int, code: int)
    requires var s := RunFrom(Fresh(provider), events);
             && s.phase.Open? && s.ws == Some(i) && i in s.sockets && !s.sockets[i].gone
             && !s.manualClose && code !in {4408, 4400} && (code == 4401 ==> provider && !s.login.retried)
    ensures var lost := RunFrom(Fresh(provider), events + [Closes(i, code)]);
            var back := RunFrom(lost, Comeback(lost));
            && lost.phase.Closed? && lost.timer
            && back.phase.Open? && back.ws == Some(lost.nextSocket) && CanSend(back)
            && View(back) == RunFrom(Fresh(provider), events).refs.subs.Keys
  {
    var s := RunFrom(Fresh(provider), events);
    ProviderStays(Fresh(provider), events);
    OneMore(Fresh(provider), events, Closes(i, code));
    ReconnectIsScheduledIff(s, Closes(i, code));
    ArmedClientComesBack(Step(s, Closes(i, code)));
    RefsAfter(s, Closes(i, code));
  }

  // ── opening and closing ──────────────────────────────────────────────────

  /** The ack of an auth request arrives, by the socket that carried the request. */
  predicate Acks(s: State, e: Event) {
    e.AuthAcked? && e.i in s.auths && s.auths[e.i] in s.sockets
    && s.sockets[s.auths[e.i]].up && !s.sockets[s.auths[e.i]].closing && !s.sockets[s.auths[e.i]].gone
  }
  /** A connection attempt starts. */
  predicate Dials(s: State, e: Event) { (e.Connect? || (e.TimerFires? && s.timer)) && (s.phase.Idle? || s.phase.Closed?) }

  /** The phase after every event: open by an ack, connecting by a dial, closed when the
      connection is lost, no token can be had, or a client without a socket is closed. */
  lemma PhaseAfter(s: State, e: Event)
    ensures Step(s, e).phase ==
              if Acks(s, e) then Open
              else if Dials(s, e) then Connecting
              else if Loses(s, e) || (e.TokenFails? && s.waits > 0) || (e.Close? && s.ws.None?) then Closed
              else s.phase
  {
    match e
    case Closes(i, code) =>
    case Sub(topic) =>
    case Unsub(h) =>
    case AuthAcked(i, expires) =>
    case Opens(i) =>
    case _ =>
  }

  /** A dial with a fixed token makes a socket at once, with a provider when the token is
      there; the newest one made is the current one until it is lost. */
  predicate MakesSocket(s: State, e: Event) { (Dials(s, e) && !s.login.provider) || (e.TokenReady? && s.waits > 0) }

  lemma CurrentSocketAfter(s: State, e: Event)
    ensures Step(s, e).ws == if MakesSocket(s, e) then Some(s.nextSocket) else if Loses(s, e) then None else s.ws
    ensures Step(s, e).nextSocket == s.nextSocket + if MakesSocket(s, e) then 1 else 0
    ensures MakesSocket(s, e) ==> Step(s, e).sockets == s.sockets[s.nextSocket := Conn(false, false, false, {})]
    ensures Step(s, e).waits ==
              if Dials(s, e) && s.login.provider then s.waits + 1
              else if (e.TokenReady? || e.TokenFails?) && s.waits > 0 then s.waits - 1
              else s.waits
  {
    match e
    case Closes(i, code) =>
    case Sub(topic) =>
    case Unsub(h) =>
    case AuthAcked(i, expires) =>
    case Opens(i) =>
    case _ =>
  }

  predicate GetsUp(s: State, e: Event, i: int) {
    e == Opens(i) && i in s.sockets && !s.sockets[i].up && !s.sockets[i].closing && !s.sockets[i].gone
  }
  /** Sending would reach a socket that is up, this one having opened just now. */
  predicate CurrentIsUp(s: State, i: int) {
    s.ws.Some? && s.ws.value in s.sockets && (s.ws.value == i || s.sockets[s.ws.value].up)
  }
  /** close() by the application, a rejected auth, a refresh that failed, or an opening that
      finds no socket to send the token on. */
  predicate Closer(s: State, e: Event, i: int) {
    || (e.Close? && s.ws == Some(i))
    || (e == AuthFails(i) && i in s.auths)
    || (e == RefreshFires(false) && s.refresh && s.ws == Some(i))
    || (GetsUp(s, e, i) && !CurrentIsUp(s, i))
  }

  /** Every socket after every event, but for the frames sent on it. */
  lemma SocketAfter(s: State, e: Event, i: int)
    requires i in s.sockets && i < s.nextSocket
    ensures i in Step(s, e).sockets && Touched(s, e, i)
  {
    match e
    case Closes(j, code) => CloseTouches(s, j, code, i);
    case Opens(j) => OpenTouches(s, j, i);
    case Sub(topic) => SubTouches(s, topic, i);
    case Unsub(h) => UnsubTouches(s, h, i);
    case AuthAcked(j, expires) => AckTouches(s, e, i);
    case Close => ClosersTouch(s, e, i);
    case AuthFails(j) => ClosersTouch(s, e, i);
    case RefreshFires(renewed) => ClosersTouch(s, e, i);
    case _ => DialsTouch(s, e, i);
  }

  /** What an event does to one socket. */
  predicate Touched(s: State, e: Event, i: int)
    requires i in s.sockets && i in Step(s, e).sockets
  {
    var (c, c') := (s.sockets[i], Step(s, e).sockets[i]);
    && (c'.up <==> c.up || GetsUp(s, e, i))
    && (c'.closing <==> c.closing || Closer(s, e, i))
    && (c'.gone <==> c.gone || (e.Closes? && e.i == i))
  }
  lemma CloseTouches(s: State, j: int, code: int, i: int)
    requires i in s.sockets
    ensures i in Step(s, Closes(j, code)).sockets && Touched(s, Closes(j, code), i)
  {
  }
  lemma OpenTouches(s: State, j: int, i: int)
    requires i in s.sockets
    ensures i in Step(s, Opens(j)).sockets && Touched(s, Opens(j), i)
  {
  }
  lemma SubTouches(s: State, topic: Topic, i: int)
    requires i in s.sockets
    ensures i in Step(s, Sub(topic)).sockets && Touched(s, Sub(topic), i)
  {
  }
  lemma UnsubTouches(s: State, h: int, i: int)
    requires i in s.sockets
    ensures i in Step(s, Unsub(h)).sockets && Touched(s, Unsub(h), i)
  {
  }
  lemma AckTouches(s: State, e: Event, i: int)
    requires i in s.sockets && e.AuthAcked?
    ensures i in Step(s, e).sockets && Touched(s, e, i)
  {
  }
  lemma ClosersTouch(s: State, e: Event, i: int)
    requires i in s.sockets && (e.Close? || e.AuthFails? || e.RefreshFires?)
    ensures i in Step(s, e).sockets && Touched(s, e, i)
  {
  }
  lemma DialsTouch(s: State, e: Event, i: int)
    requires i in s.sockets && i < s.nextSocket && (e.Connect? || e.TimerFires? || e.TokenReady? || e.TokenFails? || e.Cmd?)
    ensures i in Step(s, e).sockets && Touched(s, e, i)
  {
  }

  /** An opened socket sends the auth request on the current one; the ack or the rejection
      settles it, and losing the connection forgets them all. */
  lemma AuthsAfter(s: State, e: Event, i: int)
    ensures i in Step(s, e).auths <==>
              || (GetsUp(s, e, i) && CurrentIsUp(s, i))
              || (i in s.auths && !Loses(s, e) && !(Acks(s, e) && e.i == i) && e != AuthFails(i))
    ensures GetsUp(s, e, i) && i in Step(s, e).auths && i !in s.auths ==> Some(Step(s, e).auths[i]) == s.ws
  {
    match e
    case Closes(j, code) =>
    case Sub(topic) =>
    case Unsub(h) =>
    case AuthAcked(j, expires) =>
    case Opens(j) =>
    case _ =>
  }

  /** A manual close lasts until the next dial. */
  lemma ManualCloseAfter(s: State, e: Event)
    ensures Step(s, e).manualClose <==> e.Close? || (s.manualClose && !Dials(s, e))
  {
    match e
    case Closes(j, code) =>
    case Sub(topic) =>
    case Unsub(h) =>
    case AuthAcked(j, expires) =>
    case Opens(j) =>
    case _ =>
  }

  /** The token refresh is scheduled by an ack that says when the token expires, until it
      fails, the connection is lost or the client closed. */
  lemma RefreshAfter(s: State, e: Event)
    ensures Step(s, e).refresh <==>
              if Acks(s, e) then e.expires else s.refresh && !e.Close? && !Loses(s, e) && e != RefreshFires(false)
    ensures Step(s, e).login.retried <==>
              if Acks(s, e) then false
              else s.login.retried || (Loses(s, e) && Arms(s, e) && e.code == 4401)
    ensures Step(s, e).login.provider == s.login.provider
  {
    match e
    case Closes(j, code) =>
    case Sub(topic) =>
    case Unsub(h) =>
    case AuthAcked(j, expires) =>
    case Opens(j) =>
    case _ =>
  }

  // ── commands ─────────────────────────────────────────────────────────────

  /** A command is handed over if the client is open, else refused if it was closed, else
      kept; opening hands over what was kept, in order, and close() refuses it. */
  lemma CommandsAfter(s: State, e: Event)
    ensures var (c, c') := (s.cmds, Step(s, e).cmds);
            match e
            case Cmd =>
              && c'.next == c.next + 1
              && c'.handed == (if s.phase.Open? then c.handed + [c.next] else c.handed)
              && c'.refused == (if !s.phase.Open? && s.manualClose then c.refused + [c.next] else c.refused)
              && c'.queue == (if !s.phase.Open? && !s.manualClose then c.queue + [c.next] else c.queue)
            case Close => c' == c.(refused := c.refused + c.queue, queue := [])
            case _ => c' == if Acks(s, e) then c.(handed := c.handed + c.queue, queue := []) else c
  {
    match e
    case Closes(j, code) =>
    case Sub(topic) =>
    case Unsub(h) =>
    case AuthAcked(j, expires) =>
    case Opens(j) =>
    case _ =>
  }
}
