/** `channels.send`, statement by statement. Concurrent senders meet only at the
    channel row lock; any of them may die between two statements. */
module SendMessage {
  import opened Common

  type Id = nat
  type Tx = nat

  datatype Message = Message(id: Id, seqNo: int, client: Id, sender: Id)

  /** How far a send has come. From Bumped on it owns the channel row. */
  datatype Phase =
    | Authorized(sender: Id, client: Id)
    | Bumped(sender: Id, client: Id, seqNo: int)
    | Unseen(sender: Id, client: Id, seqNo: int)
    | Inserted(message: Message)

  datatype Ack = Ack(client: Id, id: Id, seqNo: int, deduped: bool)

  /** `lastSeq` and `messages` are the committed rows; `messages` is in commit order. */
  datatype State = State(members: set<Id>, lastSeq: int, messages: seq<Message>, lock: Option<Tx>,
                         sends: map<Tx, Phase>, acks: seq<Ack>)

  datatype Event =
    | Begin(tx: Tx, sender: Id, client: Id)   // membership read; a non-member is refused
    | Bump(tx: Tx)                            // UPDATE .. last_seq + 1, takes the row lock
    | Check(tx: Tx)                           // SELECT by client uuid, after the lock
    | Insert(tx: Tx, id: Id)
    | Commit(tx: Tx)
    | Die(tx: Tx)                             // connection lost or error: rollback
    | SetMembers(members: set<Id>)

  function Initial(members: set<Id>): State {
    State(members, 0, [], None, map[], [])
  }

  predicate HasClient(messages: seq<Message>, client: Id) {
    exists i :: 0 <= i < |messages| && messages[i].client == client
  }

  /** Index of the message with this client uuid. */
  function IndexOf(messages: seq<Message>, client: Id): (i: nat)
    requires HasClient(messages, client)
    ensures i < |messages| && messages[i].client == client
  {
    if messages[0].client == client then 0
    else
      assert HasClient(messages[1..], client) by {
        var j :| 0 <= j < |messages| && messages[j].client == client;
        assert messages[1..][j - 1] == messages[j];
      }
      1 + IndexOf(messages[1..], client)
  }

  function End(s: State, tx: Tx): State {
    s.(sends := s.sends - {tx}, lock := if s.lock == Some(tx) then None else s.lock)
  }

  /** Events that are not enabled change nothing. */
  function Step(s: State, e: Event): State {
    match e
    case Begin(tx, sender, client) =>
      if tx in s.sends || sender !in s.members then s else s.(sends := s.sends[tx := Authorized(sender, client)])
    case Bump(tx) =>
      if tx in s.sends && s.sends[tx].Authorized? && s.lock.None? then
        s.(lock := Some(tx), sends := s.sends[tx := Bumped(s.sends[tx].sender, s.sends[tx].client, s.lastSeq + 1)])
      else s
    case Check(tx) =>
      if tx in s.sends && s.sends[tx].Bumped? then
        var p := s.sends[tx];
        if HasClient(s.messages, p.client) then
          var m := s.messages[IndexOf(s.messages, p.client)];
          End(s, tx).(acks := s.acks + [Ack(p.client, m.id, m.seqNo, true)])
        else s.(sends := s.sends[tx := Unseen(p.sender, p.client, p.seqNo)])
      else s
    case Insert(tx, id) =>
      if tx in s.sends && s.sends[tx].Unseen? then
        var p := s.sends[tx];
        s.(sends := s.sends[tx := Inserted(Message(id, p.seqNo, p.client, p.sender))])
      else s
    case Commit(tx) =>
      if tx in s.sends && s.sends[tx].Inserted? then
        var m := s.sends[tx].message;
        End(s, tx).(lastSeq := m.seqNo, messages := s.messages + [m], acks := s.acks + [Ack(m.client, m.id, m.seqNo, false)])
      else s
    case Die(tx) => if tx in s.sends then End(s, tx) else s
    case SetMembers(members) => s.(members := members)
  }

  function Run(members: set<Id>, events: seq<Event>): State {
    if events == [] then Initial(members) else Step(Run(members, events[..|events| - 1]), events[|events| - 1])
  }

  // ── invariant ────────────────────────────────────────────────────────────

  ghost predicate Gapless(s: State) {
    |s.messages| == s.lastSeq && forall i :: 0 <= i < |s.messages| ==> s.messages[i].seqNo == i + 1
  }
  ghost predicate OnePerClient(messages: seq<Message>) {
    forall i, j :: 0 <= i < j < |messages| ==> messages[i].client != messages[j].client
  }
  /** A send past the bump owns the row, so its number is still the next one. */
  ghost predicate PhaseHolds(s: State, tx: Tx)
    requires tx in s.sends
  {
    match s.sends[tx]
    case Authorized(_, _) => s.lock != Some(tx)
    case Bumped(_, _, n) => s.lock == Some(tx) && n == s.lastSeq + 1
    case Unseen(_, client, n) => s.lock == Some(tx) && n == s.lastSeq + 1 && !HasClient(s.messages, client)
    case Inserted(m) => s.lock == Some(tx) && m.seqNo == s.lastSeq + 1 && !HasClient(s.messages, m.client)
  }
  ghost predicate Acked(messages: seq<Message>, a: Ack) {
    exists i :: 0 <= i < |messages| && messages[i].client == a.client && messages[i].id == a.id && messages[i].seqNo == a.seqNo
  }
  ghost predicate Inv(s: State) {
    && Gapless(s)
    && OnePerClient(s.messages)
    && (forall tx :: tx in s.sends ==> PhaseHolds(s, tx))
    && (s.lock.Some? ==> s.lock.value in s.sends)
    && (forall i :: 0 <= i < |s.acks| ==> Acked(s.messages, s.acks[i]))
  }

  lemma CommitKeepsInv(s: State, tx: Tx)
    requires Inv(s)
    ensures Inv(Step(s, Commit(tx)))
  {
    var s' := Step(s, Commit(tx));
    if s' != s {
      assert PhaseHolds(s, tx);
      var m := s.sends[tx].message;
      forall t | t in s'.sends ensures PhaseHolds(s', t) {
        assert PhaseHolds(s, t);
      }
      forall i | 0 <= i < |s'.acks| ensures Acked(s'.messages, s'.acks[i]) {
        if i < |s.acks| {
          assert Acked(s.messages, s.acks[i]);
          var j :| 0 <= j < |s.messages| && s.messages[j].client == s.acks[i].client
                && s.messages[j].id == s.acks[i].id && s.messages[j].seqNo == s.acks[i].seqNo;
          assert s'.messages[j] == s.messages[j];
        } else {
          assert s'.messages[|s.messages|] == m;
        }
      }
      forall i, j | 0 <= i < j < |s'.messages| ensures s'.messages[i].client != s'.messages[j].client {
        assert s'.messages[i] == s.messages[i];
      }
    }
  }

  lemma StepKeepsInv(s: State, e: Event)
    requires Inv(s)
    ensures Inv(Step(s, e))
  {
    var s' := Step(s, e);
    if e.Commit? {
      CommitKeepsInv(s, e.tx);
    } else {
      forall t | t in s'.sends ensures PhaseHolds(s', t) {
        assert t in s.sends ==> PhaseHolds(s, t);
      }
      forall i | 0 <= i < |s'.acks| ensures Acked(s'.messages, s'.acks[i]) {
        assert i < |s.acks| ==> Acked(s.messages, s.acks[i]);
      }
    }
  }

  lemma {:induction false} RunKeepsInv(members: set<Id>, events: seq<Event>)
    ensures Inv(Run(members, events))
  {
    if events != [] {
      RunKeepsInv(members, events[..|events| - 1]);
      StepKeepsInv(Run(members, events[..|events| - 1]), events[|events| - 1]);
    }
  }

  // ── the promises ─────────────────────────────────────────────────────────

  /** In commit order the seqs are exactly 1, 2, .., last_seq, whoever died on the way. */
  lemma SeqsAreGapless(members: set<Id>, events: seq<Event>)
    ensures var s := Run(members, events);
            |s.messages| == s.lastSeq && forall i :: 0 <= i < |s.messages| ==> s.messages[i].seqNo == i + 1
  {
    RunKeepsInv(members, events);
  }

  /** At most one message per client uuid. */
  lemma OneMessagePerClient(members: set<Id>, events: seq<Event>, i: nat, j: nat)
    requires i < |Run(members, events).messages| && j < |Run(members, events).messages|
    requires Run(members, events).messages[i].client == Run(members, events).messages[j].client
    ensures i == j
  {
    RunKeepsInv(members, events);
  }

  /** Every ack for one client uuid, original or retry, names the same message. */
  lemma RetriesAckTheOriginal(members: set<Id>, events: seq<Event>, i: nat, j: nat)
    requires i < |Run(members, events).acks| && j < |Run(members, events).acks|
    requires Run(members, events).acks[i].client == Run(members, events).acks[j].client
    ensures Run(members, events).acks[i].id == Run(members, events).acks[j].id
    ensures Run(members, events).acks[i].seqNo == Run(members, events).acks[j].seqNo
  {
    RunKeepsInv(members, events);
    var s := Run(members, events);
    assert Acked(s.messages, s.acks[i]) && Acked(s.messages, s.acks[j]);
  }

  /** Among the acks of one client uuid at most one is a first delivery, so at most
      one of the sends fans out. */
  lemma {:induction false} OneFanOutPerClient(members: set<Id>, events: seq<Event>, i: nat, j: nat)
    requires i < j < |Run(members, events).acks|
    requires Run(members, events).acks[i].client == Run(members, events).acks[j].client
    ensures Run(members, events).acks[j].deduped
  {
    if events != [] {
      var before, e := Run(members, events[..|events| - 1]), events[|events| - 1];
      var after := Run(members, events);
      RunKeepsInv(members, events[..|events| - 1]);
      if j < |before.acks| {
        OneFanOutPerClient(members, events[..|events| - 1], i, j);
      } else {
        assert Acked(before.messages, before.acks[i]);
      }
    }
  }

  /** A retry that finds its message leaves the counter and the messages alone and
      gives the row lock back. */
  lemma RetryLeavesNoGap(s: State, tx: Tx)
    requires Inv(s) && tx in s.sends && s.sends[tx].Bumped? && HasClient(s.messages, s.sends[tx].client)
    ensures var s' := Step(s, Check(tx));
            && s'.lastSeq == s.lastSeq && s'.messages == s.messages && s'.lock.None?
            && |s'.acks| == |s.acks| + 1
            && var a := s'.acks[|s.acks|];
            a.deduped && a.client == s.sends[tx].client && 1 <= a.seqNo <= s.lastSeq && s.messages[a.seqNo - 1].id == a.id
  {
    assert PhaseHolds(s, tx);
  }

  /** A retry on an idle channel, from its membership check to its ack, in any reachable
      state: nothing changes but one more ack, which is the original message's. */
  lemma RetryIsANoOp(members: set<Id>, events: seq<Event>, tx: Tx, sender: Id, i: nat)
    requires var s := Run(members, events); s.lock.None? && tx !in s.sends && sender in s.members && i < |s.messages|
    ensures var s := Run(members, events);
            var m := s.messages[i];
            Run(members, events + [Begin(tx, sender, m.client), Bump(tx), Check(tx)])
            == s.(acks := s.acks + [Ack(m.client, m.id, i + 1, true)])
  {
    RunKeepsInv(members, events);
    var s := Run(members, events);
    var m := s.messages[i];
    var retry := [Begin(tx, sender, m.client), Bump(tx), Check(tx)];
    RunOneMore(members, events, retry[0]);
    RunOneMore(members, events + [retry[0]], retry[1]);
    RunOneMore(members, events + [retry[0]] + [retry[1]], retry[2]);
    assert events + retry == events + [retry[0]] + [retry[1]] + [retry[2]];
    var s1 := Step(s, retry[0]);
    var s2 := Step(s1, retry[1]);
    var s3 := Step(s2, retry[2]);
    assert HasClient(s.messages, m.client) && IndexOf(s.messages, m.client) == i;
    assert s3.sends == s.sends;
  }

  lemma RunOneMore(members: set<Id>, events: seq<Event>, e: Event)
    ensures Run(members, events + [e]) == Step(Run(members, events), e)
  {
    assert (events + [e])[..|events|] == events;
  }

  /** A first send on an idle channel, undisturbed from its membership check to its ack, in
      any reachable state: a member's message becomes the next one and is acked as new. */
  lemma UndisturbedSend(members: set<Id>, events: seq<Event>, tx: Tx, sender: Id, client: Id, id: Id)
    requires var s := Run(members, events);
             s.lock.None? && tx !in s.sends && sender in s.members && !HasClient(s.messages, client)
    ensures var s := Run(members, events);
            Run(members, events + [Begin(tx, sender, client)] + [Bump(tx)] + [Check(tx)] + [Insert(tx, id)] + [Commit(tx)])
            == s.(lastSeq := s.lastSeq + 1, messages := s.messages + [Message(id, s.lastSeq + 1, client, sender)],
                  acks := s.acks + [Ack(client, id, s.lastSeq + 1, false)])
  {
    var s := Run(members, events);
    var e1 := events + [Begin(tx, sender, client)];
    var e3 := e1 + [Bump(tx)] + [Check(tx)];
    RunOneMore(members, events, Begin(tx, sender, client));
    RunOneMore(members, e1, Bump(tx));
    RunOneMore(members, e1 + [Bump(tx)], Check(tx));
    RunOneMore(members, e3, Insert(tx, id));
    RunOneMore(members, e3 + [Insert(tx, id)], Commit(tx));
    var s3 := s.(lock := Some(tx), sends := s.sends[tx := Unseen(sender, client, s.lastSeq + 1)]);
    assert Run(members, e3) == s3;
    var s5 := Step(Step(s3, Insert(tx, id)), Commit(tx));
    assert s5.sends == s.sends;
  }

  // ── who can send ─────────────────────────────────────────────────────────

  /** An earlier membership check let this sender in, with this client uuid. */
  ghost predicate WasLetIn(members: set<Id>, events: seq<Event>, sender: Id, client: Id) {
    exists i {:trigger events[i]} ::
      0 <= i < |events| && events[i].Begin? && events[i].sender == sender && events[i].client == client
      && sender in Run(members, events[..i]).members
  }
  function SenderOf(p: Phase): Id { if p.Inserted? then p.message.sender else p.sender }
  function ClientOf(p: Phase): Id { if p.Inserted? then p.message.client else p.client }

  ghost predicate AllLetIn(members: set<Id>, events: seq<Event>, s: State) {
    && (forall tx {:trigger s.sends[tx]} :: tx in s.sends ==> WasLetIn(members, events, SenderOf(s.sends[tx]), ClientOf(s.sends[tx])))
    && (forall m {:trigger m in s.messages} :: m in s.messages ==> WasLetIn(members, events, m.sender, m.client))
  }

  lemma StillLetIn(members: set<Id>, events: seq<Event>, e: Event, sender: Id, client: Id)
    requires WasLetIn(members, events, sender, client)
    ensures WasLetIn(members, events + [e], sender, client)
  {
    var more := events + [e];
    var i :| 0 <= i < |events| && events[i].Begin? && events[i].sender == sender && events[i].client == client
          && sender in Run(members, events[..i]).members;
    assert more[i] == events[i] && more[..i] == events[..i];
  }

  /** Where sends and messages come from. */
  lemma SendsAfter(s: State, e: Event, tx: Tx)
    requires tx in Step(s, e).sends
    ensures var p := Step(s, e).sends[tx];
            || (tx in s.sends && SenderOf(p) == SenderOf(s.sends[tx]) && ClientOf(p) == ClientOf(s.sends[tx]))
            || (e == Begin(tx, SenderOf(p), ClientOf(p)) && SenderOf(p) in s.members)
  {
  }
  lemma MessagesAfter(s: State, e: Event, m: Message)
    requires m in Step(s, e).messages
    ensures m in s.messages || (e.Commit? && e.tx in s.sends && m.sender == SenderOf(s.sends[e.tx]) && m.client == ClientOf(s.sends[e.tx]))
  {
  }

  lemma StepLetsIn(members: set<Id>, events: seq<Event>, e: Event)
    requires AllLetIn(members, events, Run(members, events))
    ensures AllLetIn(members, events + [e], Step(Run(members, events), e))
  {
    var s, more := Run(members, events), events + [e];
    var s' := Step(s, e);
    assert more[|events|] == e && more[..|events|] == events;
    forall tx | tx in s'.sends ensures WasLetIn(members, more, SenderOf(s'.sends[tx]), ClientOf(s'.sends[tx])) {
      SendsAfter(s, e, tx);
      if tx in s.sends && SenderOf(s'.sends[tx]) == SenderOf(s.sends[tx]) && ClientOf(s'.sends[tx]) == ClientOf(s.sends[tx]) {
        StillLetIn(members, events, e, SenderOf(s.sends[tx]), ClientOf(s.sends[tx]));
      } else {
        LetInNow(members, events, e);
      }
    }
    forall m | m in s'.messages ensures WasLetIn(members, more, m.sender, m.client) {
      MessagesAfter(s, e, m);
      if m in s.messages {
        StillLetIn(members, events, e, m.sender, m.client);
      } else {
        StillLetIn(members, events, e, SenderOf(s.sends[e.tx]), ClientOf(s.sends[e.tx]));
      }
    }
  }

  lemma LetInNow(members: set<Id>, events: seq<Event>, e: Event)
    requires e.Begin? && e.sender in Run(members, events).members
    ensures WasLetIn(members, events + [e], e.sender, e.client)
  {
    var more := events + [e];
    assert more[|events|] == e && more[..|events|] == events;
  }

  /** Every message of a channel is from somebody who was a member when they began to send
      it, under the client uuid they gave. */
  lemma {:induction false} MessagesAreFromMembers(members: set<Id>, events: seq<Event>)
    ensures AllLetIn(members, events, Run(members, events))
  {
    if events != [] {
      MessagesAreFromMembers(members, events[..|events| - 1]);
      StepLetsIn(members, events[..|events| - 1], events[|events| - 1]);
      assert events[..|events| - 1] + [events[|events| - 1]] == events;
    }
  }

  /** Whoever is no member is refused: nothing of theirs begins. */
  lemma SendBeginsIff(s: State, tx: Tx, sender: Id, client: Id)
    requires tx !in s.sends
    ensures tx in Step(s, Begin(tx, sender, client)).sends <==> sender in s.members
  {
  }
}
