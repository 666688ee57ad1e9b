/** The in-process connection registry and the connection handles it mutates. */
module Registry {
  import opened Common
  import opened SessionIndex

  datatype EvtClass = Durable | Ephemeral
  datatype Frame = Push(topic: Topic, evt: int) | AckFrame(replyTo: int)

  const SLOW_CONSUMER: int := 4409

  // ── one connection's outgoing side ───────────────────────────────────────

  /** The bounded queue to the writer task and the close code. */
  datatype Channel = Channel(queue: seq<Frame>, capacity: nat, receiving: bool, closed: Option<int>)

  /** `try_send` succeeds. */
  predicate Accepts(c: Channel) {
    c.receiving && |c.queue| < c.capacity
  }
  /** First close code wins. */
  function Closed(c: Channel, code: int): Channel {
    if c.closed.None? then c.(closed := Some(code)) else c
  }
  /** A durable frame is queued or closes the connection as a slow consumer. */
  function SentDurable(c: Channel, f: Frame): Channel {
    if Accepts(c) then c.(queue := c.queue + [f]) else Closed(c, SLOW_CONSUMER)
  }
  /** An ephemeral frame is dropped unless more than a fifth of the slots are free. */
  function SentEphemeral(c: Channel, f: Frame): Channel {
    if Accepts(c) && c.capacity - |c.queue| >= c.capacity / 5 + 1 then c.(queue := c.queue + [f]) else c
  }
  function Sent(c: Channel, f: Frame, kind: EvtClass): Channel {
    if kind.Durable? then SentDurable(c, f) else SentEphemeral(c, f)
  }

  /** However a send ends, queued frames keep their order, the queue its bound, a
      durable frame is lost only on a connection that is then closed, and an ephemeral
      one never closes anything or takes the last slots. */
  lemma SendIsOrderlyAndBounded(c: Channel, f: Frame, kind: EvtClass)
    requires |c.queue| <= c.capacity
    ensures var c' := Sent(c, f, kind);
            && c.queue <= c'.queue && |c'.queue| <= c'.capacity
            && (kind.Durable? && c'.closed.None? ==> c'.queue == c.queue + [f])
            && (kind.Ephemeral? ==> c'.closed == c.closed)
            && (kind.Ephemeral? && c'.queue != c.queue ==> 5 * (c'.capacity - |c'.queue| + 1) > c'.capacity)
            && (c.closed.Some? ==> c'.closed == c.closed)
  {
    assert c.queue <= c.queue + [f];
  }

  /** A durable frame is queued exactly if the writer is there and a slot is free, and else
      closes the connection, unless it is closed already, as a slow consumer; an ephemeral
      frame is queued exactly if the writer is there and more than a fifth of the slots are
      free. Nothing else about the connection changes. */
  lemma SendSucceedsIff(c: Channel, f: Frame, kind: EvtClass)
    requires |c.queue| <= c.capacity
    ensures var c' := Sent(c, f, kind);
            var free := c.capacity - |c.queue|;
            var ok := c.receiving && free > 0 && (kind.Ephemeral? ==> 5 * free > c.capacity);
            c' == if ok then c.(queue := c.queue + [f])
                  else if kind.Durable? && c.closed.None? then c.(closed := Some(4409))
                  else c
  {
  }

  class ConnHandle {
    const conn: Conn
    var channel: Channel
    var subs: set<Topic>

    constructor (conn: Conn, capacity: nat)
      ensures this.conn == conn && channel == Channel([], capacity, true, None) && subs == {}
    {
      this.conn := conn;
      channel, subs := Channel([], capacity, true, None), {};
    }

    method Close(code: int)
      modifies this`channel
      ensures channel == Closed(old(channel), code)
    {
      if channel.closed.None? {
        channel := channel.(closed := Some(code));
      }
    }

    method SendAck(f: Frame)
      modifies this`channel
      ensures channel == SentDurable(old(channel), f)
    {
      if Accepts(channel) {
        channel := channel.(queue := channel.queue + [f]);
      } else {
        Close(SLOW_CONSUMER);
      }
    }

    method SendEvt(f: Frame, kind: EvtClass)
      modifies this`channel
      ensures channel == Sent(old(channel), f, kind)
    {
      match kind
      case Durable => SendAck(f);
      case Ephemeral =>
        if channel.capacity - |channel.queue| >= channel.capacity / 5 + 1 && Accepts(channel) {
          channel := channel.(queue := channel.queue + [f]);
        }
    }
  }

  /** The connections behind a table of handles. */
  ghost function Live(sessions: map<Uuid, ConnHandle>): (live: map<Uuid, Conn>) {
    map s | s in sessions :: sessions[s].conn
  }
  /** Entries whose session still maps to the connection they name. */
  function Answering(sessions: map<Uuid, ConnHandle>): Entry -> bool {
    (e: Entry) => e.0 in sessions && sessions[e.0].conn.connSeq == e.1
  }
  /** The topics each handle holds. */
  ghost function Held(handles: map<Conn, ConnHandle>): map<Conn, set<Topic>>
    reads handles.Values`subs
  {
    map c | c in handles :: handles[c].subs
  }

  /** Every handle is filed under its own connection. */
  ghost predicate Filed(handles: map<Conn, ConnHandle>) {
    forall c :: c in handles ==> handles[c].conn == c
  }
  ghost predicate OwnHandle(sessions: map<Uuid, ConnHandle>, handles: map<Conn, ConnHandle>, s: Uuid)
    requires s in sessions
  {
    sessions[s].conn in handles && handles[sessions[s].conn] == sessions[s]
  }
  ghost predicate OwnHandles(sessions: map<Uuid, ConnHandle>, handles: map<Conn, ConnHandle>) {
    forall s {:trigger OwnHandle(sessions, handles, s)} :: s in sessions ==> OwnHandle(sessions, handles, s)
  }

  lemma LiveGrows(sessions: map<Uuid, ConnHandle>, s: Uuid, h: ConnHandle)
    ensures Live(sessions[s := h]) == Live(sessions)[s := h.conn]
  {
  }
  lemma LiveShrinks(sessions: map<Uuid, ConnHandle>, s: Uuid)
    ensures Live(sessions - {s}) == Live(sessions) - {s}
  {
  }

  lemma HeldShrinks(handles: map<Conn, ConnHandle>, c: Conn)
    ensures Held(handles - {c}) == Held(handles) - {c}
  {
  }

  class SessionRegistry {
    var sessions: map<Uuid, ConnHandle>
    var topics: map<Key, seq<Entry>>
    var presence: map<(Uuid, Uuid), nat>
    /** Registered and not yet unregistered, superseded ones included. */
    ghost var handles: map<Conn, ConnHandle>
    ghost var used: set<int>

    ghost function Ix(): Index
      reads this, handles.Values`subs
    {
      Index(Live(sessions), topics, presence, Held(handles), used)
    }

    ghost predicate Owned()
      reads this
    {
      Filed(handles) && OwnHandles(sessions, handles)
    }

    ghost predicate Valid()
      reads this, handles.Values`subs
    {
      Owned() && Inv(Ix())
    }

    constructor ()
      ensures Valid() && Ix() == EMPTY
    {
      sessions, topics, presence, handles, used := map[], map[], map[], map[], {};
      new;
      EmptyHolds();
    }

    /** Last writer wins: the previous handle of the session, if any, is returned for
        closing; the flag says whether the character had no connection before. */
    method Register(h: ConnHandle) returns (prev: Option<ConnHandle>, cameOnline: bool)
      requires Valid() && h.conn.connSeq !in used && h.subs == {}
      modifies this
      ensures Valid()
      ensures handles == old(handles)[h.conn := h]
      ensures Ix() == Registered(old(Ix()), h.conn)
      ensures prev == if h.conn.session in old(sessions) then Some(old(sessions)[h.conn.session]) else None
      ensures cameOnline <==> ConnsOf(old(Ix()).subs, (h.conn.world, h.conn.character)) == {}
    {
      ghost var ix := Ix();
      HandlesGrow(h);
      prev, cameOnline := InsertRows(h);
      RegisterKeepsInv(ix, h.conn);
    }

    /** The statements of `register`. */
    method InsertRows(h: ConnHandle) returns (prev: Option<ConnHandle>, cameOnline: bool)
      requires Held(handles[h.conn := h]) == Held(handles)[h.conn := {}]
      modifies this
      ensures handles == old(handles)[h.conn := h] && sessions == old(sessions)[h.conn.session := h]
      ensures Ix() == Registered(old(Ix()), h.conn)
      ensures prev == if h.conn.session in old(sessions) then Some(old(sessions)[h.conn.session]) else None
      ensures cameOnline <==> CountOf(presence, (h.conn.world, h.conn.character)) == 1
    {
      ghost var after := Held(handles[h.conn := h]);
      LiveGrows(sessions, h.conn.session, h);
      prev := if h.conn.session in sessions then Some(sessions[h.conn.session]) else None;
      sessions := sessions[h.conn.session := h];
      cameOnline := CountUp((h.conn.world, h.conn.character));
      handles, used := handles[h.conn := h], used + {h.conn.connSeq};
      assert Held(handles) == after;
    }

    method CountUp(key: (Uuid, Uuid)) returns (cameOnline: bool)
      modifies this`presence
      ensures presence == CountedUp(old(presence), key)
      ensures cameOnline <==> CountOf(presence, key) == 1
    {
      var count := if key in presence then presence[key] else 0;
      count := count + 1;
      presence := presence[key := count];
      cameOnline := count == 1;
    }

    method CountDown(key: (Uuid, Uuid)) returns (wentOffline: bool)
      modifies this`presence
      ensures presence == CountedDown(old(presence), key)
      ensures wentOffline <==> key in old(presence) && old(presence)[key] <= 1
    {
      wentOffline := false;
      if key in presence {
        var count := if presence[key] == 0 then 0 else presence[key] - 1;
        presence := presence[key := count];
        wentOffline := count == 0;
      }
      if wentOffline {
        presence := presence - {key};
      }
    }

    /** The session goes only if it still maps to this connection. */
    method ForgetSession(h: ConnHandle)
      requires h.conn.session in sessions && sessions[h.conn.session].conn.connSeq == h.conn.connSeq
               <==> Current(Live(sessions), h.conn)
      modifies this`sessions
      ensures sessions == if Current(Live(old(sessions)), h.conn) then old(sessions) - {h.conn.session} else old(sessions)
      ensures Live(sessions) ==
                if Current(Live(old(sessions)), h.conn) then Live(old(sessions)) - {h.conn.session} else Live(old(sessions))
    {
      LiveShrinks(sessions, h.conn.session);
      if h.conn.session in sessions && sessions[h.conn.session].conn.connSeq == h.conn.connSeq {
        sessions := sessions - {h.conn.session};
      }
    }

    lemma HandlesGrow(h: ConnHandle)
      requires Valid() && h.conn.connSeq !in used && h.subs == {}
      ensures Filed(handles[h.conn := h])
      ensures OwnHandles(sessions[h.conn.session := h], handles[h.conn := h])
      ensures Held(handles[h.conn := h]) == Held(handles)[h.conn := {}]
    {
      assert h.conn !in handles by {
        assert h.conn in handles ==> NumberUsed(Ix(), h.conn);
      }
      var sessions', handles' := sessions[h.conn.session := h], handles[h.conn := h];
      forall s | s in sessions' ensures OwnHandle(sessions', handles', s) {
        assert s in sessions ==> OwnHandle(sessions, handles, s);
      }
    }

    lemma HandlesShrink(h: ConnHandle)
      requires Valid() && h.conn in handles && handles[h.conn] == h
      ensures var sessions' := if Current(Live(sessions), h.conn) then sessions - {h.conn.session} else sessions;
              OwnHandles(sessions', handles - {h.conn})
      ensures Filed(handles - {h.conn})
      ensures h.conn.session in sessions && sessions[h.conn.session].conn.connSeq == h.conn.connSeq
              <==> Current(Live(sessions), h.conn)
    {
      var sessions' := if Current(Live(sessions), h.conn) then sessions - {h.conn.session} else sessions;
      SessionsAreOwn(Ix());
      if h.conn.session in sessions {
        assert OwnHandle(sessions, handles, h.conn.session);
        assert SameNumber(sessions[h.conn.session].conn, h.conn) <==> sessions[h.conn.session].conn.connSeq == h.conn.connSeq;
      }
      forall s | s in sessions' ensures OwnHandle(sessions', handles - {h.conn}, s) {
        assert OwnHandle(sessions, handles, s) && SessionHolds(Ix(), s) && Live(sessions)[s] == sessions[s].conn;
      }
    }

    method RemoveTopicEntry(key: Key, c: Conn)
      modifies this`topics
      ensures topics == WithoutEntry(old(topics), key, c)
    {
      if key in topics {
        var kept := Retain(topics[key], NotOf(c));
        topics := topics[key := kept];
        if kept == [] {
          topics := topics - {key};
        }
      }
    }

    method Subscribe(topic: Topic, h: ConnHandle)
      requires Valid() && h.conn in handles && handles[h.conn] == h
      modifies this`topics, h`subs
      ensures Valid()
      ensures Ix() == Subscribed(old(Ix()), h.conn, topic)
    {
      SubscribeKeepsInv(Ix(), h.conn, topic);
      ghost var target := Subscribed(Ix(), h.conn, topic);
      if topic in h.subs {
        return;
      }
      h.subs := h.subs + {topic};
      var key := (h.conn.world, topic);
      topics := topics[key := EntriesOf(topics, key) + [EntryOf(h.conn)]];
      assert Ix().subs == target.subs;
    }

    method Unsubscribe(topic: Topic, h: ConnHandle)
      requires Valid() && h.conn in handles && handles[h.conn] == h
      modifies this`topics, h`subs
      ensures Valid()
      ensures Ix() == Unsubscribed(old(Ix()), h.conn, topic)
    {
      UnsubscribeKeepsInv(Ix(), h.conn, topic);
      ghost var target := Unsubscribed(Ix(), h.conn, topic);
      if topic !in h.subs {
        return;
      }
      h.subs := h.subs - {topic};
      RemoveTopicEntry((h.conn.world, topic), h.conn);
      assert Ix().subs == target.subs;
    }

    /** The loop of `unregister` over the topics the connection holds. */
    method RemoveAllEntries(h: ConnHandle)
      modifies this`topics
      ensures Stripped(old(topics), topics, h.conn, h.subs)
    {
      var todo := h.subs;
      while todo != {}
        invariant todo <= h.subs
        invariant Stripped(old(topics), topics, h.conn, h.subs - todo)
        decreases |todo|
      {
        var topic :| topic in todo;
        ghost var before := topics;
        RemoveTopicEntry((h.conn.world, topic), h.conn);
        todo := todo - {topic};
        forall key: Key
          ensures EntriesOf(topics, key) ==
                    if key.0 == h.conn.world && key.1 in h.subs - todo then Retain(EntriesOf(old(topics), key), NotOf(h.conn))
                    else EntriesOf(old(topics), key)
        {
          assert EntriesOf(before, key) == EntriesOf(before, key);
        }
      }
      assert h.subs - {} == h.subs;
    }

    /** Cleanup of one connection, current or superseded. */
    method Unregister(h: ConnHandle) returns (wentOffline: bool)
      requires Valid() && h.conn in handles && handles[h.conn] == h
      modifies this
      ensures Valid()
      ensures handles == old(handles) - {h.conn}
      ensures Stripped(old(topics), topics, h.conn, h.subs)
      ensures Ix() == Unregistered(old(Ix()), h.conn, topics)
      ensures wentOffline <==> ConnsOf(Ix().subs, (h.conn.world, h.conn.character)) == {}
    {
      ghost var ix := Ix();
      HandlesShrink(h);
      wentOffline := RemoveRows(h);
      UnregisterKeepsInv(ix, h.conn, topics);
    }

    /** The statements of `unregister`. */
    method RemoveRows(h: ConnHandle) returns (wentOffline: bool)
      requires h.conn in handles
      requires h.conn.session in sessions && sessions[h.conn.session].conn.connSeq == h.conn.connSeq
               <==> Current(Live(sessions), h.conn)
      modifies this
      ensures handles == old(handles) - {h.conn}
      ensures sessions == if Current(Live(old(sessions)), h.conn) then old(sessions) - {h.conn.session} else old(sessions)
      ensures Stripped(old(topics), topics, h.conn, h.subs)
      ensures Ix() == Unregistered(old(Ix()), h.conn, topics)
      ensures wentOffline <==>
                (h.conn.world, h.conn.character) in old(presence) && old(presence)[(h.conn.world, h.conn.character)] <= 1
    {
      ghost var before := Held(handles);
      ForgetSession(h);
      RemoveAllEntries(h);
      wentOffline := CountDown((h.conn.world, h.conn.character));
      assert Held(handles) == before;
      HeldShrinks(handles, h.conn);
      handles := handles - {h.conn};
    }

    /** Fan out one event: each live subscriber's channel gets the frame once, nobody
        else's changes; stale entries of the list are pruned. */
    method PublishLocal(world: Uuid, topic: Topic, evt: int, kind: EvtClass)
      requires Valid()
      modifies this`topics, handles.Values`channel
      ensures Valid()
      ensures Ix() == Published(old(Ix()), (world, topic))
      ensures forall c :: c in handles ==>
                handles[c].channel ==
                  if Receives(old(Ix()), (world, topic), c) then Sent(old(handles[c].channel), Push(topic, evt), kind)
                  else old(handles[c].channel)
    {
      var key := (world, topic);
      ghost var ix := Ix();
      PublishKeepsInv(ix, key);
      ListedIsTheScan(ix, key);
      if key !in topics {
        return;
      }
      var entries := topics[key];
      var stale := FanOut(entries, Push(topic, evt), kind);
      assert Ix() == ix;
      if stale {
        topics := topics[key := Retain(topics[key], Answering(sessions))];
        RetainSame(ix.topics[key], Answering(sessions), IsFresh(ix.sessions));
      }
      assert Ix() == Published(ix, key);
    }

    /** The send loop of a publish; reports whether it met a stale entry. */
    method FanOut(entries: seq<Entry>, frame: Frame, kind: EvtClass) returns (stale: bool)
      requires Owned() && SessionsHold(Ix()) && NoDuplicates(entries)
      modifies handles.Values`channel
      ensures stale <==> exists i :: 0 <= i < |entries| && !Fresh(Ix().sessions, entries[i])
      ensures forall c :: c in handles ==>
                handles[c].channel ==
                  if Current(Ix().sessions, c) && EntryOf(c) in entries then Sent(old(handles[c].channel), frame, kind)
                  else old(handles[c].channel)
    {
      stale := false;
      ghost var live := Ix().sessions;
      SessionsAreOwn(Ix());
      for i := 0 to |entries|
        invariant stale <==> exists j :: 0 <= j < i && !Fresh(live, entries[j])
        invariant forall c :: c in handles ==>
                    handles[c].channel ==
                      if Current(live, c) && EntryOf(c) in entries[..i] then Sent(old(handles[c].channel), frame, kind)
                      else old(handles[c].channel)
      {
        var (session, connSeq) := entries[i];
        assert entries[..i + 1] == entries[..i] + [entries[i]];
        if session in sessions && sessions[session].conn.connSeq == connSeq {
          var h := sessions[session];
          assert OwnHandle(sessions, handles, session) && live[session] == h.conn;
          assert EntryOf(h.conn) == entries[i] && entries[i] !in entries[..i];
          h.SendEvt(frame, kind);
        } else {
          assert !Fresh(live, entries[i]);
          stale := true;
        }
      }
      assert entries[..|entries|] == entries;
    }

    /** One step of `DropCharacterTopic`'s loop. */
    method DropOne(s: Uuid, topic: Topic, ghost ix: Index, ghost done: set<Uuid>)
      requires Valid() && SessionsHold(ix) && s in sessions
      requires Live(sessions) == ix.sessions && Held(handles) == Dropped(ix, done, topic)
      modifies this`topics, handles.Values`subs
      ensures Valid()
      ensures Held(handles) == Dropped(ix, done + {s}, topic)
    {
      DroppedGrows(ix, Ix(), done, topic, s);
      assert OwnHandle(sessions, handles, s);
      Unsubscribe(topic, sessions[s]);
      assert Held(handles) == Ix().subs;
    }

    /** Take a topic from every current connection of a character, and from no other. */
    method DropCharacterTopic(world: Uuid, character: Uuid, topic: Topic)
      requires Valid()
      modifies this`topics, handles.Values`subs
      ensures Valid()
      ensures Ix().subs == Dropped(old(Ix()), SessionsOf(old(Ix()).sessions, world, character), topic)
    {
      ghost var ix := Ix();
      var todo := SessionsOfCharacter(world, character);
      ghost var all, done: set<Uuid> := todo, {};
      NothingDropped(ix, topic);
      while todo != {}
        invariant done + todo == all && all <= sessions.Keys
        invariant Valid()
        invariant Held(handles) == Dropped(ix, done, topic)
        decreases |todo|
      {
        EmptyIfNoMember(todo);
        var s :| s in todo;
        DropOne(s, topic, ix, done);
        todo, done := todo - {s}, done + {s};
      }
    }

    method SessionsOfCharacter(world: Uuid, character: Uuid) returns (found: set<Uuid>)
      ensures found == SessionsOf(Live(sessions), world, character) && found <= sessions.Keys
    {
      found := set s | s in sessions && sessions[s].conn.world == world && sessions[s].conn.character == character;
    }
  }
}
