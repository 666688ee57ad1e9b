/** From the committed message to the subscribed client, on one replica: commit and
    publish are separate steps, a resume registers first and reads afterwards, and
    the outgoing queue is bounded. One channel, one connection, any number of
    senders. */
module Delivery {
  import opened Common
  import S = SendMessage
  import T = SeqTracker

  const RESUME_MAX: nat := 500

  datatype Frame = Msg(seqNo: int) | Overflow | SubAck | Other

  /** The `sub` command in progress, or the last one served. `rows` is what the replay
      read returned; `readAt` is last_seq at that read; `ackAt` is the place of the
      ack in the frame log. */
  datatype Resume =
    | Idle
    | Requested(after: int)
    | Pushing(after: int, readAt: int, rows: seq<int>, next: nat)
    | Served(after: int, readAt: int, rows: seq<int>, ackAt: nat)

  /** `log` is every frame ever accepted by the connection's queue, oldest first; the
      first `written` of them have left for the client. `subscribedAt` is last_seq when
      the subscription was registered. */
  datatype State = State(
    sends: S.State,
    toPublish: set<int>,
    subscribed: bool, current: bool, closed: bool,
    subscribedAt: int,
    resume: Resume,
    capacity: nat,
    log: seq<Frame>, written: nat)

  datatype Event =
    | Send(e: S.Event)
    | Publish(seqNo: int)
    | Sub(after: Option<int>)     // authorized; registers, then starts the replay if asked
    | ReadReplay                  // the replay query
    | PushReplay                  // one backpressured push
    | FinishReplay                // overflow marker if due
    | AbandonReplay               // the push found the socket gone
    | Unsub                       // by command, or dropped from outside
    | TakeOver                    // a newer connection registered for the session
    | Close                       // any close code
    | EnqueueOther                // acks, other topics
    | Write                       // the writer task sends one frame

  function Initial(members: set<S.Id>, capacity: nat): State {
    State(S.Initial(members), {}, false, true, false, 0, Idle, capacity, [], 0)
  }

  predicate HasRoom(s: State) {
    |s.log| - s.written < s.capacity
  }
  predicate Busy(s: State) {
    s.resume.Requested? || s.resume.Pushing?
  }

  /** `try_send`: a full queue closes the connection as a slow consumer. */
  function TrySend(s: State, f: Frame): State {
    if HasRoom(s) then s.(log := s.log + [f]) else s.(closed := true)
  }

  /** The seqs after `after`, ascending, capped: `seq > $2 ORDER BY seq LIMIT 500`. */
  function RowsAfter(after: int, last: int, limit: nat): seq<int>
    decreases last - after
  {
    var first := if after < 0 then 1 else after + 1;
    if first > last || limit == 0 then [] else [first] + RowsAfter(first, last, limit - 1)
  }

  /** Events that are not enabled change nothing. */
  function Step(s: State, e: Event): State {
    match e
    case Send(se) =>
      var sends := S.Step(s.sends, se);
      s.(sends := sends, toPublish := if sends.lastSeq != s.sends.lastSeq then s.toPublish + {sends.lastSeq} else s.toPublish)
    case Publish(n) =>
      if n !in s.toPublish then s
      else
        var s1 := s.(toPublish := s.toPublish - {n});
        if s.subscribed && s.current then TrySend(s1, Msg(n)) else s1
    case Sub(after) =>
      if Busy(s) then s
      else
        var s1 := s.(subscribed := true, subscribedAt := if s.subscribed then s.subscribedAt else s.sends.lastSeq);
        if after.Some? then s1.(resume := Requested(after.value)) else TrySend(s1, SubAck).(resume := Idle)
    case ReadReplay =>
      if !s.resume.Requested? then s
      else
        var after := s.resume.after;
        s.(resume := Pushing(after, s.sends.lastSeq, RowsAfter(after, s.sends.lastSeq, RESUME_MAX), 0))
    case PushReplay =>
      if s.resume.Pushing? && s.resume.next < |s.resume.rows| && HasRoom(s) then
        s.(log := s.log + [Msg(s.resume.rows[s.resume.next])], resume := s.resume.(next := s.resume.next + 1))
      else s
    case FinishReplay =>
      if s.resume.Pushing? && s.resume.next >= |s.resume.rows| then
        var r := s.resume;
        if |r.rows| == RESUME_MAX then
          if !HasRoom(s) then s
          else
            var s1 := s.(log := s.log + [Overflow]);
            TrySend(s1, SubAck).(resume := Served(r.after, r.readAt, r.rows, |s1.log|))
        else TrySend(s, SubAck).(resume := Served(r.after, r.readAt, r.rows, |s.log|))
      else s
    case AbandonReplay => if s.resume.Pushing? && s.closed then TrySend(s, SubAck).(resume := Idle) else s
    case Unsub => s.(subscribed := false)
    case TakeOver => s.(current := false)
    case Close => s.(closed := true)
    case EnqueueOther => TrySend(s, Other)
    case Write => if s.written < |s.log| then s.(written := s.written + 1) else s
  }

  function Run(members: set<S.Id>, capacity: nat, events: seq<Event>): State {
    if events == [] then Initial(members, capacity)
    else Step(Run(members, capacity, events[..|events| - 1]), events[|events| - 1])
  }

  // ── the replay query ─────────────────────────────────────────────────────

  predicate InRange(after: int, last: int, x: int) {
    x > after && 1 <= x <= last
  }

  /** The query returns the seqs just above the watermark in ascending order without
      a hole, and all of them when it returns fewer than the cap. */
  lemma {:induction false} RowsAreTheNextSeqs(after: int, last: int, limit: nat)
    ensures var rows := RowsAfter(after, last, limit);
            && |rows| <= limit
            && (forall i :: 0 <= i < |rows| ==> InRange(after, last, rows[i]) && rows[i] == rows[0] + i)
            && (rows != [] ==> rows[0] == if after < 0 then 1 else after + 1)
            && (|rows| < limit ==> forall x :: InRange(after, last, x) ==> x in rows)
    decreases limit
  {
    var first := if after < 0 then 1 else after + 1;
    if first <= last && limit > 0 {
      RowsAreTheNextSeqs(first, last, limit - 1);
      var rest := RowsAfter(first, last, limit - 1);
      var rows := RowsAfter(after, last, limit);
      assert rows == [first] + rest;
      if |rows| < limit {
        forall x | InRange(after, last, x) ensures x in rows {
          assert x > first ==> InRange(first, last, x) && x in rest;
        }
      }
    }
  }

  /** The first seq above a watermark. */
  function FirstAbove(after: int): int { if after < 0 then 1 else after + 1 }

  /** How many seqs there are from `first` to `last`, up to the cap. */
  function Capped(first: int, last: int, limit: nat): nat {
    if last < first then 0 else if last - first + 1 < limit then last - first + 1 else limit
  }

  lemma {:induction false} RowsExactly(after: int, last: int, limit: nat)
    ensures var rows := RowsAfter(after, last, limit);
            && |rows| == Capped(FirstAbove(after), last, limit)
            && forall k :: 0 <= k < |rows| ==> rows[k] == FirstAbove(after) + k
    decreases limit
  {
    var first := FirstAbove(after);
    if first <= last && limit > 0 {
      RowsExactly(first, last, limit - 1);
      assert RowsAfter(after, last, limit) == [first] + RowsAfter(first, last, limit - 1);
    }
  }

  // ── invariant ────────────────────────────────────────────────────────────

  /** The connection is the live, open subscriber. */
  predicate Live(s: State) {
    s.subscribed && s.current && !s.closed
  }

  /** A message committed since the subscription waits to be published or is enqueued. */
  ghost predicate LiveCovers(s: State) {
    forall x :: s.subscribedAt < x <= s.sends.lastSeq ==> x in s.toPublish || Msg(x) in s.log
  }

  /** The replay reads after the subscription was registered, and pushes in order. */
  ghost predicate ResumeHolds(s: State) {
    match s.resume
    case Idle => true
    case Requested(after) => true
    case Pushing(after, readAt, rows, next) =>
      && next <= |rows| && readAt <= s.sends.lastSeq
      && rows == RowsAfter(after, readAt, RESUME_MAX)
      && (Live(s) ==> s.subscribedAt <= readAt)
      && forall i :: 0 <= i < next ==> Msg(rows[i]) in s.log
    case Served(after, readAt, rows, ackAt) =>
      && readAt <= s.sends.lastSeq
      && rows == RowsAfter(after, readAt, RESUME_MAX)
      && (Live(s) ==> s.subscribedAt <= readAt)
      && ackAt <= |s.log|
      && (!s.closed ==> ackAt < |s.log| && s.log[ackAt] == SubAck)
      && (forall i :: 0 <= i < |rows| ==> Msg(rows[i]) in s.log[..ackAt])
      && (|rows| == RESUME_MAX ==> Overflow in s.log[..ackAt])
  }

  ghost predicate Inv(s: State) {
    && S.Inv(s.sends)
    && s.written <= |s.log|
    && (forall x :: x in s.toPublish ==> 1 <= x <= s.sends.lastSeq)
    && s.subscribedAt <= s.sends.lastSeq
    && (Live(s) ==> LiveCovers(s))
    && ResumeHolds(s)
  }

  lemma SendAdvances(s: S.State, e: S.Event)
    requires S.Inv(s)
    ensures S.Inv(S.Step(s, e))
    ensures var s' := S.Step(s, e); s'.lastSeq == s.lastSeq || (s'.lastSeq == s.lastSeq + 1 && e.Commit?)
  {
    S.StepKeepsInv(s, e);
    assert e.Commit? && e.tx in s.sends ==> S.PhaseHolds(s, e.tx);
  }

  /** The log only grows at the end. */
  lemma LogGrows(s: State, e: Event)
    ensures s.log <= Step(s, e).log
  {
  }

  lemma PrefixKeeps(log: seq<Frame>, log': seq<Frame>, n: nat)
    requires log <= log' && n <= |log|
    ensures log'[..n] == log[..n]
    ensures forall f :: f in log ==> f in log'
  {
    forall f | f in log ensures f in log' {
      var i :| 0 <= i < |log| && log[i] == f;
      assert log'[i] == f;
    }
  }

  lemma CoversStep(s: State, e: Event)
    requires Inv(s) && Live(Step(s, e))
    ensures LiveCovers(Step(s, e))
  {
    var s' := Step(s, e);
    LogGrows(s, e);
    PrefixKeeps(s.log, s'.log, 0);
    if e.Send? {
      SendAdvances(s.sends, e.e);
    }
    forall x | s'.subscribedAt < x <= s'.sends.lastSeq ensures x in s'.toPublish || Msg(x) in s'.log {
      if e.Publish? && x == e.seqNo && x in s.toPublish {
        assert s'.log[|s.log|] == Msg(x);
      }
    }
  }

  /** What holds of the resume survives as long as the command itself does not move. */
  lemma ResumeKept(s: State, s': State)
    requires ResumeHolds(s) && s'.resume == s.resume && s.log <= s'.log && s.sends.lastSeq <= s'.sends.lastSeq
    requires Live(s') ==> Live(s) && s'.subscribedAt == s.subscribedAt
    requires s.closed ==> s'.closed
    ensures ResumeHolds(s')
  {
    PrefixKeeps(s.log, s'.log, if s.resume.Served? then s.resume.ackAt else 0);
  }

  lemma PushStep(s: State)
    requires ResumeHolds(s)
    ensures ResumeHolds(Step(s, PushReplay))
  {
    var s' := Step(s, PushReplay);
    if s' != s {
      PrefixKeeps(s.log, s'.log, |s.log|);
      assert s'.log[|s.log|] == Msg(s.resume.rows[s.resume.next]);
    }
  }

  lemma FinishStep(s: State)
    requires ResumeHolds(s)
    ensures ResumeHolds(Step(s, FinishReplay))
  {
    var s' := Step(s, FinishReplay);
    if s' != s {
      var r, ackAt := s.resume, s'.resume.ackAt;
      var told := if |r.rows| == RESUME_MAX then s.log + [Overflow] else s.log;
      assert s'.log[..ackAt] == told;
      PrefixKeeps(s.log, told, |s.log|);
      assert |r.rows| == RESUME_MAX ==> told[|s.log|] == Overflow;
    }
  }

  lemma ResumeStep(s: State, e: Event)
    requires Inv(s)
    ensures ResumeHolds(Step(s, e))
  {
    match e
    case Send(se) =>
      SendAdvances(s.sends, se);
      ResumeKept(s, Step(s, e));
    case Publish(_) => ResumeKept(s, Step(s, e));
    case Sub(after) => if Busy(s) { ResumeKept(s, Step(s, e)); }
    case ReadReplay => if !s.resume.Requested? { ResumeKept(s, Step(s, e)); }
    case PushReplay => PushStep(s);
    case FinishReplay => FinishStep(s);
    case AbandonReplay => if !(s.resume.Pushing? && s.closed) { ResumeKept(s, Step(s, e)); }
    case Unsub => ResumeKept(s, Step(s, e));
    case TakeOver => ResumeKept(s, Step(s, e));
    case Close => ResumeKept(s, Step(s, e));
    case EnqueueOther => ResumeKept(s, Step(s, e));
    case Write => ResumeKept(s, Step(s, e));
  }

  lemma SendsStep(s: State, e: Event)
    requires S.Inv(s.sends)
    ensures S.Inv(Step(s, e).sends)
    ensures s.sends.lastSeq <= Step(s, e).sends.lastSeq
    ensures forall x :: x in Step(s, e).toPublish && x !in s.toPublish ==> x == Step(s, e).sends.lastSeq
  {
    if e.Send? {
      SendAdvances(s.sends, e.e);
    }
  }

  lemma WrittenStep(s: State, e: Event)
    requires s.written <= |s.log|
    ensures Step(s, e).written <= |Step(s, e).log|
    ensures Step(s, e).subscribedAt in {s.subscribedAt, s.sends.lastSeq}
  {
  }

  lemma StepKeepsInv(s: State, e: Event)
    requires Inv(s)
    ensures Inv(Step(s, e))
  {
    SendsStep(s, e);
    WrittenStep(s, e);
    assert S.Gapless(Step(s, e).sends);
    if Live(Step(s, e)) {
      CoversStep(s, e);
    }
    ResumeStep(s, e);
  }

  lemma {:induction false} RunKeepsInv(members: set<S.Id>, capacity: nat, events: seq<Event>)
    ensures Inv(Run(members, capacity, events))
  {
    if events == [] {
      S.RunKeepsInv(members, []);
    } else {
      RunKeepsInv(members, capacity, events[..|events| - 1]);
      StepKeepsInv(Run(members, capacity, events[..|events| - 1]), events[|events| - 1]);
    }
  }

  // ── what a resume asked for ──────────────────────────────────────────────

  /** `events[i]` is a sub accepted with the client's watermark `f`, and no later sub is
      accepted. */
  ghost predicate AskedFor(members: set<S.Id>, capacity: nat, events: seq<Event>, i: nat, f: int) {
    && i < |events| && events[i] == Sub(Some(f)) && !Busy(Run(members, capacity, events[..i]))
    && forall j {:trigger events[j]} :: i < j < |events| && events[j].Sub? ==> Busy(Run(members, capacity, events[..j]))
  }

  /** A replay read came after `events[i]` and found last_seq at `readAt`. */
  ghost predicate ReadSince(members: set<S.Id>, capacity: nat, events: seq<Event>, i: nat, readAt: int) {
    exists j {:trigger events[j]} ::
      i < j < |events| && events[j].ReadReplay? && Run(members, capacity, events[..j]).sends.lastSeq == readAt
  }

  lemma ShorterRun(members: set<S.Id>, capacity: nat, events: seq<Event>, j: nat)
    requires j < |events|
    ensures events[..|events| - 1][..j] == events[..j]
    ensures j < |events| - 1 ==> events[..|events| - 1][j] == events[j]
  {
  }

  lemma AskedBefore(members: set<S.Id>, capacity: nat, events: seq<Event>, i: nat, f: int)
    requires AskedFor(members, capacity, events, i, f) && i < |events| - 1
    ensures AskedFor(members, capacity, events[..|events| - 1], i, f)
  {
    var shorter := events[..|events| - 1];
    ShorterRun(members, capacity, events, i);
    forall j | i < j < |shorter| && shorter[j].Sub? ensures Busy(Run(members, capacity, shorter[..j])) {
      ShorterRun(members, capacity, events, j);
      assert events[j].Sub?;
    }
  }

  lemma ReadStaysRead(members: set<S.Id>, capacity: nat, events: seq<Event>, i: nat, readAt: int)
    requires events != [] && ReadSince(members, capacity, events[..|events| - 1], i, readAt)
    ensures ReadSince(members, capacity, events, i, readAt)
  {
    var shorter := events[..|events| - 1];
    var j :| i < j < |shorter| && shorter[j].ReadReplay? && Run(members, capacity, shorter[..j]).sends.lastSeq == readAt;
    ShorterRun(members, capacity, events, j);
    assert events[j].ReadReplay?;
  }

  /** Between two accepted subs a resume keeps its watermark and reads at most once. */
  lemma ResumeMoves(s: State, e: Event)
    requires !(e.Sub? && !Busy(s))
    ensures var s' := Step(s, e);
            && (s.closed ==> s'.closed)
            && (s'.resume.Idle? ==> s.resume.Idle? || s.closed)
            && (!s'.resume.Idle? ==> !s.resume.Idle? && s'.resume.after == s.resume.after)
            && (s'.resume.Pushing? || s'.resume.Served? ==>
                  || ((s.resume.Pushing? || s.resume.Served?) && s'.resume.readAt == s.resume.readAt)
                  || (e.ReadReplay? && s'.resume.readAt == s.sends.lastSeq))
  {
  }

  /** The resume in progress, or served, is the one that was asked for: it carries the
      watermark of that event and reads after it. It is given up only on a closed connection. */
  lemma {:induction false} ResumeIsTheOneAskedFor(members: set<S.Id>, capacity: nat, events: seq<Event>, i: nat, f: int)
    requires AskedFor(members, capacity, events, i, f)
    ensures var s := Run(members, capacity, events);
            && (s.resume.Idle? ==> s.closed)
            && (!s.resume.Idle? ==> s.resume.after == f)
            && (s.resume.Pushing? || s.resume.Served? ==> ReadSince(members, capacity, events, i, s.resume.readAt))
  {
    var n := |events| - 1;
    var before := Run(members, capacity, events[..n]);
    if i < n {
      AskedBefore(members, capacity, events, i, f);
      ResumeIsTheOneAskedFor(members, capacity, events[..n], i, f);
      if before.resume.Pushing? || before.resume.Served? {
        ReadStaysRead(members, capacity, events, i, before.resume.readAt);
      }
      ResumeMoves(before, events[n]);
      assert events[n].ReadReplay? ==> ReadSince(members, capacity, events, i, before.sends.lastSeq);
    }
  }

  /** What a resume reads and serves: exactly the committed seqs above the watermark the
      client sent, as of a read after its subscription, up to the cap; once served, all of
      them are enqueued before the ack. */
  lemma ReplayIsWhatWasAskedFor(members: set<S.Id>, capacity: nat, events: seq<Event>, i: nat, f: int)
    requires AskedFor(members, capacity, events, i, f)
    ensures var s := Run(members, capacity, events);
            s.resume.Pushing? || s.resume.Served? ==>
              && ReadSince(members, capacity, events, i, s.resume.readAt)
              && |s.resume.rows| == Capped(FirstAbove(f), s.resume.readAt, 500)
              && (forall k :: 0 <= k < |s.resume.rows| ==> s.resume.rows[k] == FirstAbove(f) + k)
              && (s.resume.Served? ==>
                    && s.resume.ackAt <= |s.log|
                    && (forall k :: 0 <= k < |s.resume.rows| ==> Msg(s.resume.rows[k]) in s.log[..s.resume.ackAt])
                    && (|s.resume.rows| == 500 ==> Overflow in s.log[..s.resume.ackAt]))
  {
    RunKeepsInv(members, capacity, events);
    ResumeIsTheOneAskedFor(members, capacity, events, i, f);
    var s := Run(members, capacity, events);
    if s.resume.Pushing? || s.resume.Served? {
      RowsExactly(f, s.resume.readAt, RESUME_MAX);
    }
  }

  // ── nothing falls between replay and live stream ─────────────────────────

  ghost function Rows(s: State): seq<int> {
    if s.resume.Pushing? || s.resume.Served? then s.resume.rows else []
  }

  /** Once the replay read has returned fewer than the cap, every committed message
      above the watermark the client sent is in that replay, already enqueued, or still has
      its publish step ahead; unless the connection was closed, superseded or unsubscribed. */
  lemma NothingFallsBetween(members: set<S.Id>, capacity: nat, events: seq<Event>, i: nat, f: int, x: int)
    requires AskedFor(members, capacity, events, i, f)
    requires var s := Run(members, capacity, events);
             && Live(s) && (s.resume.Pushing? || s.resume.Served?) && |Rows(s)| < RESUME_MAX
             && f < x && 1 <= x <= s.sends.lastSeq
    ensures var s := Run(members, capacity, events);
            x in Rows(s) || Msg(x) in s.log || x in s.toPublish
  {
    var s := Run(members, capacity, events);
    RunKeepsInv(members, capacity, events);
    ResumeIsTheOneAskedFor(members, capacity, events, i, f);
    if x <= s.resume.readAt {
      RowsAreTheNextSeqs(f, s.resume.readAt, RESUME_MAX);
      assert InRange(f, s.resume.readAt, x);
    }
  }

  /** A served resume never loses a message above the client's watermark silently: each is
      enqueued or about to be published, or the overflow marker is enqueued before the ack. */
  lemma ServedMeansCoveredOrTold(members: set<S.Id>, capacity: nat, events: seq<Event>, i: nat, f: int, x: int)
    requires AskedFor(members, capacity, events, i, f)
    requires var s := Run(members, capacity, events);
             Live(s) && s.resume.Served? && f < x && 1 <= x <= s.sends.lastSeq
    ensures var s := Run(members, capacity, events);
            && s.resume.ackAt < |s.log| && s.log[s.resume.ackAt] == SubAck
            && (Msg(x) in s.log || x in s.toPublish || Overflow in s.log[..s.resume.ackAt])
  {
    var s := Run(members, capacity, events);
    RunKeepsInv(members, capacity, events);
    ResumeIsTheOneAskedFor(members, capacity, events, i, f);
    RowsAreTheNextSeqs(f, s.resume.readAt, RESUME_MAX);
    if |s.resume.rows| < RESUME_MAX {
      NothingFallsBetween(members, capacity, events, i, f, x);
      if x in s.resume.rows {
        var k :| 0 <= k < |s.resume.rows| && s.resume.rows[k] == x;
        assert Msg(x) in s.log[..s.resume.ackAt];
      }
    }
  }

  // ── end to end with the client's tracker ─────────────────────────────────

  /** The seqs a client observes in a stretch of frames. */
  ghost function SeqsOf(frames: seq<Frame>): seq<int> {
    if frames == [] then []
    else
      var last := frames[|frames| - 1];
      SeqsOf(frames[..|frames| - 1]) + (if last.Msg? then [last.seqNo] else [])
  }

  lemma {:induction false} SeqsOfKeepsMessages(frames: seq<Frame>, x: int)
    ensures x in SeqsOf(frames) <==> Msg(x) in frames
  {
    if frames != [] {
      SeqsOfKeepsMessages(frames[..|frames| - 1], x);
      assert frames == frames[..|frames| - 1] + [frames[|frames| - 1]];
    }
  }

  /** Every message frame carries a seq. */
  ghost predicate LogIsNumbered(s: State) {
    && (forall x :: Msg(x) in s.log ==> x > 0)
    && (s.resume.Pushing? ==> forall i :: 0 <= i < |s.resume.rows| ==> s.resume.rows[i] > 0)
  }

  lemma FrameAppended(log: seq<Frame>, f: Frame)
    requires forall x :: Msg(x) in log ==> x > 0
    requires f.Msg? ==> f.seqNo > 0
    ensures forall x :: Msg(x) in log + [f] ==> x > 0
  {
  }

  lemma NumberedStep(s: State, e: Event)
    requires Inv(s) && LogIsNumbered(s)
    ensures LogIsNumbered(Step(s, e))
  {
    match e
    case Publish(n) => if n in s.toPublish { FrameAppended(s.log, Msg(n)); }
    case ReadReplay =>
      if s.resume.Requested? { RowsAreTheNextSeqs(s.resume.after, s.sends.lastSeq, RESUME_MAX); }
    case PushReplay =>
      if s.resume.Pushing? && s.resume.next < |s.resume.rows| { FrameAppended(s.log, Msg(s.resume.rows[s.resume.next])); }
    case FinishReplay =>
      FrameAppended(s.log, Overflow);
      FrameAppended(s.log + [Overflow], SubAck);
      FrameAppended(s.log, SubAck);
    case Sub(_) => FrameAppended(s.log, SubAck);
    case AbandonReplay => FrameAppended(s.log, SubAck);
    case EnqueueOther => FrameAppended(s.log, Other);
    case _ => assert Step(s, e).log == s.log && Step(s, e).resume == s.resume;
  }

  lemma {:induction false} RunIsNumbered(members: set<S.Id>, capacity: nat, events: seq<Event>)
    ensures LogIsNumbered(Run(members, capacity, events))
  {
    if events != [] {
      RunIsNumbered(members, capacity, events[..|events| - 1]);
      RunKeepsInv(members, capacity, events[..|events| - 1]);
      NumberedStep(Run(members, capacity, events[..|events| - 1]), events[|events| - 1]);
    }
  }

  /** What a client has observed of `frames` after an earlier `before`. */
  ghost function Observed(before: seq<int>, frames: seq<Frame>): seq<int> { before + SeqsOf(frames) }

  /** "Ack means caught up": a client that resumed from its frontier, or from 0 if it had
      seen nothing, without overflow, and has received the ack, is at least at last_seq as
      of the replay read, with no hole up to there, however live events mixed in. */
  lemma AckMeansCaughtUp(members: set<S.Id>, capacity: nat, events: seq<Event>, i: nat, before: seq<int>, f: int,
                         received: nat, g: int)
    requires T.ResumesFrom(before, f) && f >= 0 && AskedFor(members, capacity, events, i, f)
    requires var s := Run(members, capacity, events);
             && s.resume.Served? && |s.resume.rows| < RESUME_MAX
             && s.resume.ackAt < received <= |s.log|
    ensures var s := Run(members, capacity, events);
            var arrivals := Observed(before, s.log[..received]);
            && ReadSince(members, capacity, events, i, s.resume.readAt)
            && (forall x :: T.FirstOf(before) <= x <= s.resume.readAt ==> x in arrivals)
            && (arrivals != [] && T.IsFrontier(arrivals, g) ==> g >= s.resume.readAt)
  {
    var s := Run(members, capacity, events);
    RunKeepsInv(members, capacity, events);
    RunIsNumbered(members, capacity, events);
    ResumeIsTheOneAskedFor(members, capacity, events, i, f);
    RowsAreTheNextSeqs(f, s.resume.readAt, RESUME_MAX);
    var frames := s.log[..received];
    var more := SeqsOf(frames);
    forall x | f < x <= s.resume.readAt ensures x in more {
      assert InRange(f, s.resume.readAt, x);
      var k :| 0 <= k < |s.resume.rows| && s.resume.rows[k] == x;
      assert Msg(x) in s.log[..s.resume.ackAt];
      assert frames[..s.resume.ackAt] == s.log[..s.resume.ackAt];
      SeqsOfKeepsMessages(frames, x);
    }
    forall x | x in more ensures x > 0 {
      SeqsOfKeepsMessages(frames, x);
      assert Msg(x) in s.log;
    }
    T.ResumeCatchesUp(before, f, more, s.resume.readAt, g);
  }

  /** And once nothing is left to publish or to read, such a client has every message of
      the channel from its first on, the first-time client every message there is. */
  lemma QuiescentClientHasEverything(members: set<S.Id>, capacity: nat, events: seq<Event>, i: nat, before: seq<int>, f: int,
                                     g: int)
    requires T.ResumesFrom(before, f) && f >= 0 && AskedFor(members, capacity, events, i, f)
    requires var s := Run(members, capacity, events);
             && Live(s) && s.resume.Served? && |s.resume.rows| < RESUME_MAX
             && s.toPublish == {}
    ensures var s := Run(members, capacity, events);
            var arrivals := Observed(before, s.log);
            && (forall x :: T.FirstOf(before) <= x <= s.sends.lastSeq ==> x in arrivals)
            && (arrivals != [] && T.IsFrontier(arrivals, g) ==> g >= s.sends.lastSeq)
  {
    var s := Run(members, capacity, events);
    RunKeepsInv(members, capacity, events);
    RunIsNumbered(members, capacity, events);
    forall x | f < x <= s.sends.lastSeq ensures x in SeqsOf(s.log) {
      NothingFallsBetween(members, capacity, events, i, f, x);
      if x in s.resume.rows {
        var k :| 0 <= k < |s.resume.rows| && s.resume.rows[k] == x;
        assert Msg(x) in s.log[..s.resume.ackAt];
      }
      SeqsOfKeepsMessages(s.log, x);
    }
    forall x | x in SeqsOf(s.log) ensures x > 0 {
      SeqsOfKeepsMessages(s.log, x);
    }
    T.ResumeCatchesUp(before, f, SeqsOf(s.log), s.sends.lastSeq, g);
  }
}
