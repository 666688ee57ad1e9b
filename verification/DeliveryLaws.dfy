/** What a client can count on from the connection: a resume that nothing disturbs is
    served in full and in order, a publish reaches the subscriber, and the connection
    closes for the two reasons there are. */
module DeliveryLaws {
  import opened Common
  import opened Delivery
  import S = SendMessage

  // ── an undisturbed resume ────────────────────────────────────────────────

  /** `n` replay pushes, each written out to the client before the next. */
  function Rounds(n: nat): (events: seq<Event>)
    ensures |events| == 2 * n
  {
    if n == 0 then [] else Rounds(n - 1) + [PushReplay, Write]
  }
  /** A resume after `f` with `n` rows, and nothing in between. */
  function ResumeScript(f: int, n: nat): seq<Event> {
    [Sub(Some(f)), ReadReplay] + Rounds(n) + [FinishReplay]
  }
  /** The message frames `first`, `first + 1`, .. */
  function Msgs(first: int, n: nat): (frames: seq<Frame>)
    ensures |frames| == n && forall k :: 0 <= k < n ==> frames[k] == Msg(first + k)
  {
    seq(n, (k: int) => Msg(first + k))
  }

  /** `events` applied to `s`. */
  function After(s: State, events: seq<Event>): State
    decreases |events|
  {
    if events == [] then s else After(Step(s, events[0]), events[1..])
  }
  lemma {:induction false} AfterThen(s: State, xs: seq<Event>, ys: seq<Event>)
    ensures After(s, xs + ys) == After(After(s, xs), ys)
    decreases |xs|
  {
    if xs == [] {
      assert xs + ys == ys;
    } else {
      AfterThen(Step(s, xs[0]), xs[1..], ys);
      var all := xs + ys;
      assert all[0] == xs[0] && all[1..] == xs[1..] + ys;
      assert After(s, all) == After(Step(s, all[0]), all[1..]);
    }
  }
  lemma AfterTwo(s: State, d: Event, e: Event)
    ensures After(s, [d, e]) == Step(Step(s, d), e)
  {
    assert [d, e][1..] == [e];
    assert After(Step(s, d), [e]) == After(Step(Step(s, d), e), []);
  }

  /** Everything enqueued has left for the client. */
  predicate Drained(s: State) { s.written == |s.log| && !s.closed && s.capacity >= 2 }

  /** `s` after its first `n` rows have reached the client. */
  function Brought(s: State, first: int, n: nat): State
    requires s.resume.Pushing?
  {
    s.(log := s.log + Msgs(first, n), written := s.written + n, resume := s.resume.(next := n))
  }

  /** One push and one write bring the next row to the client. */
  lemma OneRound(s: State, first: int, n: nat)
    requires Drained(s) && s.resume.Pushing? && n < |s.resume.rows| && s.resume.rows[n] == first + n
    ensures Step(Step(Brought(s, first, n), PushReplay), Write) == Brought(s, first, n + 1)
  {
    assert s.log + Msgs(first, n) + [Msg(first + n)] == s.log + Msgs(first, n + 1);
  }

  /** `n` rounds bring the first `n` rows to the client. */
  lemma {:induction false} RoundsBringRows(s: State, first: int, n: nat)
    requires Drained(s) && s.resume.Pushing? && s.resume.next == 0 && n <= |s.resume.rows|
    requires forall k :: 0 <= k < |s.resume.rows| ==> s.resume.rows[k] == first + k
    ensures After(s, Rounds(n)) == Brought(s, first, n)
  {
    if n == 0 {
      assert s.log + Msgs(first, 0) == s.log;
    } else {
      RoundsBringRows(s, first, n - 1);
      AfterThen(s, Rounds(n - 1), [PushReplay, Write]);
      AfterTwo(Brought(s, first, n - 1), PushReplay, Write);
      OneRound(s, first, n - 1);
    }
  }

  /** The first two steps register and read. */
  lemma ResumeStarts(s: State, f: int)
    requires !Busy(s)
    ensures var s' := After(s, [Sub(Some(f)), ReadReplay]);
            && s'.resume.Pushing? && s'.resume.next == 0
            && |s'.resume.rows| == Capped(FirstAbove(f), s.sends.lastSeq, 500)
            && (forall k :: 0 <= k < |s'.resume.rows| ==> s'.resume.rows[k] == FirstAbove(f) + k)
            && s' == s.(subscribed := true, subscribedAt := s'.subscribedAt, resume := s'.resume)
  {
    AfterTwo(s, Sub(Some(f)), ReadReplay);
    RowsExactly(f, s.sends.lastSeq, RESUME_MAX);
  }

  /** With all rows out, the finish adds the marker if it is due, and the ack. */
  lemma ResumeEnds(s: State, first: int, n: nat)
    requires Drained(s) && s.resume.Pushing? && n == |s.resume.rows|
    ensures var s' := After(Brought(s, first, n), [FinishReplay]);
            && s'.log == s.log + Msgs(first, n) + (if n == 500 then [Overflow] else []) + [SubAck]
            && s'.resume.Served?
            && s' == s.(log := s'.log, written := s'.written, resume := s'.resume)
  {
    var log := s.log + Msgs(first, n);
    assert log + [] == log;
    assert After(Brought(s, first, n), [FinishReplay]) == After(Step(Brought(s, first, n), FinishReplay), []);
  }

  /** A resume that nothing disturbs: an open connection whose queue is empty is subscribed
      and receives exactly the committed messages above its watermark, in order, at most
      500 of them, then the overflow marker if there were as many, then the ack. */
  lemma UndisturbedResume(s: State, f: int)
    requires Drained(s) && !Busy(s)
    ensures var n := Capped(FirstAbove(f), s.sends.lastSeq, 500);
            var s' := After(s, ResumeScript(f, n));
            && s'.log == s.log + Msgs(FirstAbove(f), n) + (if n == 500 then [Overflow] else []) + [SubAck]
            && s'.subscribed && !s'.closed && s'.current == s.current && s'.resume.Served?
            && s'.sends == s.sends && s'.toPublish == s.toPublish
  {
    var n := Capped(FirstAbove(f), s.sends.lastSeq, 500);
    var start := [Sub(Some(f)), ReadReplay];
    var s2 := After(s, start);
    AfterThen(s, start + Rounds(n), [FinishReplay]);
    AfterThen(s, start, Rounds(n));
    ResumeStarts(s, f);
    RoundsBringRows(s2, FirstAbove(f), n);
    ResumeEnds(s2, FirstAbove(f), n);
  }

  // ── the connection ───────────────────────────────────────────────────────

  /** A resume is under way, so that another sub has to wait. */
  predicate Resuming(s: State) { s.resume.Requested? || s.resume.Pushing? }

  /** The step tries to enqueue a frame without waiting for room. */
  predicate Pushes(s: State, e: Event) {
    || (e.Publish? && e.seqNo in s.toPublish && s.subscribed && s.current)
    || (e == Sub(None) && !Resuming(s))
    || e.EnqueueOther?
    || (e.FinishReplay? && s.resume.Pushing? && s.resume.next >= |s.resume.rows| && |s.resume.rows| < 500)
  }
  /** The overflow marker waits for room, the ack behind it does not. */
  predicate PushesTwo(s: State, e: Event) {
    e.FinishReplay? && s.resume.Pushing? && s.resume.next >= |s.resume.rows| && |s.resume.rows| == 500 && HasRoom(s)
  }

  /** An open connection closes if and only if it is closed or a frame finds no room. */
  lemma ClosesIff(members: set<S.Id>, capacity: nat, events: seq<Event>, e: Event)
    requires !Run(members, capacity, events).closed
    ensures var s := Run(members, capacity, events);
            Step(s, e).closed <==>
              || e.Close?
              || (Pushes(s, e) && |s.log| - s.written >= s.capacity)
              || (PushesTwo(s, e) && |s.log| + 1 - s.written >= s.capacity)
  {
    RunKeepsInv(members, capacity, events);
    var s := Run(members, capacity, events);
    if s.resume.Pushing? {
      RowsExactly(s.resume.after, s.resume.readAt, RESUME_MAX);
    }
  }

  /** The subscription begins with an accepted sub and ends with an unsub; a newer
      connection takes the session over for good. */
  lemma SubscriptionAfter(s: State, e: Event)
    ensures Step(s, e).subscribed <==> (e.Sub? && !Resuming(s)) || (s.subscribed && !e.Unsub?)
    ensures Step(s, e).current <==> s.current && !e.TakeOver?
    ensures s.closed ==> Step(s, e).closed
  {
  }

  /** A publish is one message frame for the live subscriber with room, and each committed
      message is published once. */
  lemma PublishReachesTheSubscriber(members: set<S.Id>, capacity: nat, events: seq<Event>, n: int)
    requires n in Run(members, capacity, events).toPublish
    ensures var s := Run(members, capacity, events);
            var s' := Step(s, Publish(n));
            && s'.log == (if s.subscribed && s.current && |s.log| - s.written < s.capacity then s.log + [Msg(n)] else s.log)
            && n !in s'.toPublish && 1 <= n <= s.sends.lastSeq
  {
    RunKeepsInv(members, capacity, events);
  }

  /** A message is to be published once it is committed, until it is. */
  lemma ToPublishAfter(members: set<S.Id>, capacity: nat, events: seq<Event>, e: Event, n: int)
    ensures var s := Run(members, capacity, events);
            var s' := Step(s, e);
            n in s'.toPublish <==> (n in s.toPublish && e != Publish(n)) || (s.sends.lastSeq < n <= s'.sends.lastSeq)
  {
    RunKeepsInv(members, capacity, events);
    ToPublishStep(Run(members, capacity, events), e, n);
  }

  lemma ToPublishStep(s: State, e: Event, n: int)
    requires S.Inv(s.sends)
    ensures var s' := Step(s, e);
            n in s'.toPublish <==> (n in s.toPublish && e != Publish(n)) || (s.sends.lastSeq < n <= s'.sends.lastSeq)
  {
    if e.Send? {
      SendAdvances(s.sends, e.e);
    }
  }

  /** The frames a step enqueues, if there is room. */
  function FramesOf(s: State, e: Event): seq<Frame> {
    match e
    case Publish(n) => if n in s.toPublish && s.subscribed && s.current then [Msg(n)] else []
    case Sub(after) => if after.None? && !Resuming(s) then [SubAck] else []
    case PushReplay => if s.resume.Pushing? && s.resume.next < |s.resume.rows| then [Msg(s.resume.rows[s.resume.next])] else []
    case FinishReplay =>
      if s.resume.Pushing? && s.resume.next >= |s.resume.rows| then
        if |s.resume.rows| == 500 then [Overflow, SubAck] else [SubAck]
      else []
    case AbandonReplay => if s.resume.Pushing? && s.closed then [SubAck] else []
    case EnqueueOther => [Other]
    case _ => []
  }

  /** Every step enqueues its frames, as many of them as there are free slots, in order, and
      writes nothing but in the writer's own step. */
  lemma LogAfter(s: State, e: Event)
    requires 0 <= |s.log| - s.written <= s.capacity
    ensures var room := s.capacity - (|s.log| - s.written);
            var frames := FramesOf(s, e);
            Step(s, e).log == s.log + if |frames| <= room then frames else frames[..room]
    ensures Step(s, e).written == s.written + if e.Write? && s.written < |s.log| then 1 else 0
  {
    match e
    case FinishReplay => FinishLogs(s);
    case _ =>
  }

  lemma FinishLogs(s: State)
    requires 0 <= |s.log| - s.written <= s.capacity
    ensures var room := s.capacity - (|s.log| - s.written);
            var frames := FramesOf(s, FinishReplay);
            Step(s, FinishReplay).log == s.log + if |frames| <= room then frames else frames[..room]
  {
    assert s.log + [Overflow] + [SubAck] == s.log + [Overflow, SubAck];
    assert [Overflow, SubAck][..1] == [Overflow];
  }
}
