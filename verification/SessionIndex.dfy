/** The registry's index over values. The obvious reading of a publish is a scan over
    the live connections; the topic index, its lazy pruning and takeovers must agree
    with it. */
module SessionIndex {
  import opened Common

  type Uuid = int
  type Topic = string

  /** A connection: its identity and the number that tells it from a takeover successor. */
  datatype Conn = Conn(session: Uuid, world: Uuid, character: Uuid, connSeq: int)

  type Entry = (Uuid, int)
  type Key = (Uuid, Topic)

  /** `subs` has every connection that is registered and not yet unregistered, a
      superseded one included, with the topics it holds; `used` are the connection
      numbers handed out so far. */
  datatype Index = Index(
    sessions: map<Uuid, Conn>,
    topics: map<Key, seq<Entry>>,
    presence: map<(Uuid, Uuid), nat>,
    subs: map<Conn, set<Topic>>,
    used: set<int>)

  function EntryOf(c: Conn): Entry { (c.session, c.connSeq) }

  function EntriesOf(topics: map<Key, seq<Entry>>, key: Key): seq<Entry> {
    if key in topics then topics[key] else []
  }

  /** The connection its session maps to. */
  predicate Current(sessions: map<Uuid, Conn>, c: Conn) {
    c.session in sessions && sessions[c.session] == c
  }

  // ── lists ────────────────────────────────────────────────────────────────

  predicate NoDuplicates<T(==)>(s: seq<T>) {
    forall i, j :: 0 <= i < j < |s| ==> s[i] != s[j]
  }

  /** `Vec::retain`. */
  function Retain(entries: seq<Entry>, keep: Entry -> bool): seq<Entry> {
    if entries == [] then []
    else (if keep(entries[0]) then [entries[0]] else []) + Retain(entries[1..], keep)
  }

  lemma {:induction false} RetainKeepsExactly(entries: seq<Entry>, keep: Entry -> bool)
    ensures forall e :: e in Retain(entries, keep) <==> e in entries && keep(e)
    ensures NoDuplicates(entries) ==> NoDuplicates(Retain(entries, keep))
  {
    if entries != [] {
      RetainKeepsExactly(entries[1..], keep);
      assert NoDuplicates(entries) ==> entries[0] !in entries[1..];
      assert Retain(entries, keep) == (if keep(entries[0]) then [entries[0]] else []) + Retain(entries[1..], keep);
    }
  }

  lemma {:induction false} RetainSame(entries: seq<Entry>, keep: Entry -> bool, keep': Entry -> bool)
    requires forall e :: e in entries ==> keep(e) == keep'(e)
    ensures Retain(entries, keep) == Retain(entries, keep')
  {
    if entries != [] {
      RetainSame(entries[1..], keep, keep');
    }
  }

  // ── operations ───────────────────────────────────────────────────────────

  function CountOf(presence: map<(Uuid, Uuid), nat>, key: (Uuid, Uuid)): nat {
    if key in presence then presence[key] else 0
  }

  function CountedUp(presence: map<(Uuid, Uuid), nat>, key: (Uuid, Uuid)): map<(Uuid, Uuid), nat> {
    presence[key := CountOf(presence, key) + 1]
  }
  /** A count that reaches zero takes its row along. */
  function CountedDown(presence: map<(Uuid, Uuid), nat>, key: (Uuid, Uuid)): map<(Uuid, Uuid), nat> {
    if CountOf(presence, key) <= 1 then presence - {key} else presence[key := presence[key] - 1]
  }

  function Registered(ix: Index, c: Conn): Index {
    ix.(sessions := ix.sessions[c.session := c],
        presence := CountedUp(ix.presence, (c.world, c.character)),
        subs := ix.subs[c := {}], used := ix.used + {c.connSeq})
  }

  function Subscribed(ix: Index, c: Conn, topic: Topic): Index
    requires c in ix.subs
  {
    if topic in ix.subs[c] then ix
    else
      var key := (c.world, topic);
      ix.(subs := ix.subs[c := ix.subs[c] + {topic}],
          topics := ix.topics[key := EntriesOf(ix.topics, key) + [EntryOf(c)]])
  }

  function NotOf(c: Conn): Entry -> bool { (e: Entry) => e != EntryOf(c) }

  /** `remove_topic_entry`: an emptied list goes away. */
  function WithoutEntry(topics: map<Key, seq<Entry>>, key: Key, c: Conn): map<Key, seq<Entry>> {
    if key !in topics then topics
    else
      var kept := Retain(topics[key], NotOf(c));
      if kept == [] then topics - {key} else topics[key := kept]
  }

  function Unsubscribed(ix: Index, c: Conn, topic: Topic): Index
    requires c in ix.subs
  {
    if topic !in ix.subs[c] then ix
    else ix.(subs := ix.subs[c := ix.subs[c] - {topic}], topics := WithoutEntry(ix.topics, (c.world, topic), c))
  }

  /** Every entry of the connection gone, one topic at a time. */
  ghost predicate Stripped(topics: map<Key, seq<Entry>>, topics': map<Key, seq<Entry>>, c: Conn, held: set<Topic>) {
    forall key: Key {:trigger EntriesOf(topics', key)} ::
      EntriesOf(topics', key) ==
        if key.0 == c.world && key.1 in held then Retain(EntriesOf(topics, key), NotOf(c)) else EntriesOf(topics, key)
  }

  /** `c` cleans up after itself; `topics` is what its loop over the held topics leaves. */
  function Unregistered(ix: Index, c: Conn, topics: map<Key, seq<Entry>>): Index
    requires c in ix.subs
  {
    ix.(sessions := if Current(ix.sessions, c) then ix.sessions - {c.session} else ix.sessions,
        topics := topics,
        presence := CountedDown(ix.presence, (c.world, c.character)),
        subs := ix.subs - {c})
  }

  /** An entry whose session still maps to that very connection. */
  predicate Fresh(sessions: map<Uuid, Conn>, e: Entry) {
    e.0 in sessions && sessions[e.0].connSeq == e.1
  }
  function IsFresh(sessions: map<Uuid, Conn>): Entry -> bool { (e: Entry) => Fresh(sessions, e) }

  /** The connections a publish sends to, in list order. */
  function Targets(sessions: map<Uuid, Conn>, entries: seq<Entry>): seq<Conn> {
    if entries == [] then []
    else (if Fresh(sessions, entries[0]) then [sessions[entries[0].0]] else []) + Targets(sessions, entries[1..])
  }

  /** Publishing prunes a list that has stale entries; an emptied list stays. */
  function Published(ix: Index, key: Key): Index {
    if key in ix.topics && exists i :: 0 <= i < |ix.topics[key]| && !Fresh(ix.sessions, ix.topics[key][i]) then
      ix.(topics := ix.topics[key := Retain(ix.topics[key], IsFresh(ix.sessions))])
    else ix
  }

  // ── invariant ────────────────────────────────────────────────────────────

  ghost predicate SessionHolds(ix: Index, s: Uuid)
    requires s in ix.sessions
  {
    ix.sessions[s] in ix.subs && ix.sessions[s].session == s
  }
  predicate SameNumber(c: Conn, d: Conn) { c.connSeq == d.connSeq }

  ghost predicate NumberUsed(ix: Index, c: Conn) { c.connSeq in ix.used }

  ghost predicate SessionsHold(ix: Index) {
    && (forall s {:trigger SessionHolds(ix, s)} :: s in ix.sessions ==> SessionHolds(ix, s))
    && (forall c {:trigger NumberUsed(ix, c)} :: c in ix.subs ==> NumberUsed(ix, c))
    && (forall c, d {:trigger SameNumber(c, d)} :: c in ix.subs && d in ix.subs && SameNumber(c, d) ==> c == d)
  }

  /** An entry belongs to a registered connection of that world that holds the topic. */
  ghost predicate EntryHolds(subs: map<Conn, set<Topic>>, key: Key, e: Entry) {
    exists c :: c in subs && e == EntryOf(c) && key.0 == c.world && key.1 in subs[c]
  }
  ghost predicate KeyHolds(ix: Index, key: Key) {
    NoDuplicates(EntriesOf(ix.topics, key)) && forall e :: e in EntriesOf(ix.topics, key) ==> EntryHolds(ix.subs, key, e)
  }
  /** What a connection holds is indexed as long as it is current. */
  ghost predicate IndexedConn(ix: Index, c: Conn)
    requires c in ix.subs
  {
    Current(ix.sessions, c) ==> forall topic :: topic in ix.subs[c] ==> EntryOf(c) in EntriesOf(ix.topics, (c.world, topic))
  }

  ghost function ConnsOf(subs: map<Conn, set<Topic>>, key: (Uuid, Uuid)): set<Conn> {
    set c | c in subs && (c.world, c.character) == key
  }
  /** The presence table counts the registered connections; no row means none. */
  ghost predicate PresenceHolds(ix: Index, key: (Uuid, Uuid)) {
    CountOf(ix.presence, key) == |ConnsOf(ix.subs, key)| && (key in ix.presence ==> ix.presence[key] > 0)
  }

  ghost predicate TopicsHold(ix: Index) {
    && (forall key: Key {:trigger KeyHolds(ix, key)} :: KeyHolds(ix, key))
    && (forall c {:trigger IndexedConn(ix, c)} :: c in ix.subs ==> IndexedConn(ix, c))
  }
  ghost predicate Inv(ix: Index) {
    && SessionsHold(ix)
    && TopicsHold(ix)
    && AllPresenceHolds(ix)
  }

  /** Fewer connections and sessions keep what was said of the others. */
  lemma SessionsKept(ix: Index, ix': Index)
    requires SessionsHold(ix) && ix'.used == ix.used && ix'.subs.Keys <= ix.subs.Keys
    requires forall s :: s in ix'.sessions ==> s in ix.sessions && ix'.sessions[s] == ix.sessions[s] && ix'.sessions[s] in ix'.subs
    ensures SessionsHold(ix')
  {
    forall s | s in ix'.sessions ensures SessionHolds(ix', s) {
      assert SessionHolds(ix, s);
    }
    forall c | c in ix'.subs ensures NumberUsed(ix', c) {
      assert NumberUsed(ix, c);
    }
  }

  lemma SessionsAreOwn(ix: Index)
    requires SessionsHold(ix)
    ensures forall s :: s in ix.sessions ==> ix.sessions[s] in ix.subs && ix.sessions[s].session == s
  {
    forall s | s in ix.sessions ensures ix.sessions[s] in ix.subs && ix.sessions[s].session == s {
      assert SessionHolds(ix, s);
    }
  }

  lemma RegisterKeepsTopics(ix: Index, c: Conn)
    requires SessionsHold(ix) && TopicsHold(ix) && c.connSeq !in ix.used
    ensures TopicsHold(Registered(ix, c))
  {
    var ix' := Registered(ix, c);
    forall key: Key ensures KeyHolds(ix', key) {
      assert KeyHolds(ix, key);
      forall e | e in EntriesOf(ix'.topics, key) ensures EntryHolds(ix'.subs, key, e) {
        assert EntryHolds(ix.subs, key, e);
        var d :| d in ix.subs && e == EntryOf(d) && key.0 == d.world && key.1 in ix.subs[d];
        assert NumberUsed(ix, d) && ix'.subs[d] == ix.subs[d];
      }
    }
    forall d | d in ix'.subs ensures IndexedConn(ix', d) {
      assert d != c ==> IndexedConn(ix, d);
    }
  }

  ghost predicate AllPresenceHolds(ix: Index) {
    forall key {:trigger PresenceHolds(ix, key)} :: PresenceHolds(ix, key)
  }

  lemma RegisterKeepsPresence(ix: Index, c: Conn)
    requires AllPresenceHolds(ix) && c !in ix.subs
    ensures AllPresenceHolds(Registered(ix, c))
    ensures CountOf(Registered(ix, c).presence, (c.world, c.character)) == 1 <==> ConnsOf(ix.subs, (c.world, c.character)) == {}
  {
    var ix' := Registered(ix, c);
    forall key ensures PresenceHolds(ix', key) {
      assert PresenceHolds(ix, key);
      assert ConnsOf(ix'.subs, key) == ConnsOf(ix.subs, key) + (if key == (c.world, c.character) then {c} else {});
    }
    assert PresenceHolds(ix, (c.world, c.character));
  }

  /** Registering; the character came online exactly when it had no connection. */
  lemma RegisterKeepsInv(ix: Index, c: Conn)
    requires Inv(ix) && c.connSeq !in ix.used
    ensures Inv(Registered(ix, c))
    ensures CountOf(Registered(ix, c).presence, (c.world, c.character)) == 1 <==> ConnsOf(ix.subs, (c.world, c.character)) == {}
  {
    var ix' := Registered(ix, c);
    assert c !in ix.subs by {
      assert c in ix.subs ==> NumberUsed(ix, c);
    }
    SessionsAreOwn(ix);
    forall s | s in ix'.sessions ensures SessionHolds(ix', s) {}
    forall d | d in ix'.subs ensures NumberUsed(ix', d) {
      assert d != c ==> NumberUsed(ix, d);
    }
    forall d, e | d in ix'.subs && e in ix'.subs && SameNumber(d, e) ensures d == e {
      assert (d != c ==> NumberUsed(ix, d)) && (e != c ==> NumberUsed(ix, e));
    }
    RegisterKeepsTopics(ix, c);
    RegisterKeepsPresence(ix, c);
  }

  lemma PresenceKept(ix: Index, ix': Index)
    requires AllPresenceHolds(ix)
    requires ix'.presence == ix.presence && ix'.subs.Keys == ix.subs.Keys
    ensures AllPresenceHolds(ix')
  {
    forall key ensures PresenceHolds(ix', key) {
      assert PresenceHolds(ix, key);
      assert ConnsOf(ix'.subs, key) == ConnsOf(ix.subs, key);
    }
  }

  lemma UnheldIsUnlisted(ix: Index, c: Conn, topic: Topic)
    requires SessionsHold(ix) && TopicsHold(ix) && c in ix.subs && topic !in ix.subs[c]
    ensures EntryOf(c) !in EntriesOf(ix.topics, (c.world, topic))
  {
    var key := (c.world, topic);
    assert KeyHolds(ix, key);
    forall d | d in ix.subs && EntryOf(d) == EntryOf(c) ensures key.1 !in ix.subs[d] {
      assert SameNumber(c, d);
    }
  }

  lemma SubscribeKeepsTopics(ix: Index, c: Conn, topic: Topic)
    requires SessionsHold(ix) && TopicsHold(ix) && c in ix.subs
    ensures TopicsHold(Subscribed(ix, c, topic))
  {
    var ix' := Subscribed(ix, c, topic);
    if topic !in ix.subs[c] {
      UnheldIsUnlisted(ix, c, topic);
      forall key: Key ensures KeyHolds(ix', key) {
        assert KeyHolds(ix, key);
        forall e | e in EntriesOf(ix'.topics, key) ensures EntryHolds(ix'.subs, key, e) {
          if e in EntriesOf(ix.topics, key) {
            var d :| d in ix.subs && e == EntryOf(d) && key.0 == d.world && key.1 in ix.subs[d];
            assert d in ix'.subs && key.1 in ix'.subs[d];
          } else {
            assert c in ix'.subs && e == EntryOf(c);
          }
        }
      }
      forall d | d in ix'.subs ensures IndexedConn(ix', d) {
        assert IndexedConn(ix, d);
      }
    }
  }

  lemma SubscribeKeepsInv(ix: Index, c: Conn, topic: Topic)
    requires Inv(ix) && c in ix.subs
    ensures Inv(Subscribed(ix, c, topic))
  {
    SessionsAreOwn(ix);
    SessionsKept(ix, Subscribed(ix, c, topic));
    SubscribeKeepsTopics(ix, c, topic);
    PresenceKept(ix, Subscribed(ix, c, topic));
  }

  /** The list of a topic after one connection's entry has gone from it. */
  lemma StrippedKeepsTopics(ix: Index, ix': Index, c: Conn, held: set<Topic>)
    requires SessionsHold(ix) && TopicsHold(ix) && c in ix.subs
    requires Stripped(ix.topics, ix'.topics, c, held)
    requires forall d :: d in ix.subs && d != c ==> d in ix'.subs && ix'.subs[d] == ix.subs[d]
    requires forall d :: d in ix'.subs ==> d in ix.subs
    requires c in ix'.subs ==> ix'.subs[c] == ix.subs[c] - held
    requires c !in ix'.subs ==> held == ix.subs[c]
    requires forall d :: d in ix'.subs ==> (Current(ix'.sessions, d) <==> Current(ix.sessions, d))
    ensures TopicsHold(ix')
  {
    forall key: Key ensures KeyHolds(ix', key) {
      assert KeyHolds(ix, key);
      RetainKeepsExactly(EntriesOf(ix.topics, key), NotOf(c));
      forall e | e in EntriesOf(ix'.topics, key) ensures EntryHolds(ix'.subs, key, e) {
        assert EntryHolds(ix.subs, key, e);
        var d :| d in ix.subs && e == EntryOf(d) && key.0 == d.world && key.1 in ix.subs[d];
        assert d in ix'.subs && key.1 in ix'.subs[d];
      }
    }
    forall d | d in ix'.subs ensures IndexedConn(ix', d) {
      assert IndexedConn(ix, d);
      if Current(ix'.sessions, d) {
        assert SameNumber(c, d) ==> c == d;
        forall topic | topic in ix'.subs[d] ensures EntryOf(d) in EntriesOf(ix'.topics, (d.world, topic)) {
          RetainKeepsExactly(EntriesOf(ix.topics, (d.world, topic)), NotOf(c));
        }
      }
    }
  }

  lemma UnsubscribeKeepsInv(ix: Index, c: Conn, topic: Topic)
    requires Inv(ix) && c in ix.subs
    ensures Inv(Unsubscribed(ix, c, topic))
  {
    if topic in ix.subs[c] {
      var ix' := Unsubscribed(ix, c, topic);
      SessionsAreOwn(ix);
      SessionsKept(ix, ix');
      PresenceKept(ix, ix');
      StrippedKeepsTopics(ix, ix', c, {topic});
    }
  }

  lemma UnregisterKeepsPresence(ix: Index, c: Conn, topics: map<Key, seq<Entry>>)
    requires AllPresenceHolds(ix) && c in ix.subs
    ensures AllPresenceHolds(Unregistered(ix, c, topics))
    ensures CountOf(ix.presence, (c.world, c.character)) == 1 <==> ConnsOf(Unregistered(ix, c, topics).subs, (c.world, c.character)) == {}
    ensures CountOf(ix.presence, (c.world, c.character)) >= 1
  {
    var ix' := Unregistered(ix, c, topics);
    var mine := (c.world, c.character);
    assert c in ConnsOf(ix.subs, mine) && PresenceHolds(ix, mine);
    assert ConnsOf(ix'.subs, mine) == ConnsOf(ix.subs, mine) - {c};
    assert |ConnsOf(ix'.subs, mine)| == |ConnsOf(ix.subs, mine)| - 1;
    forall key ensures PresenceHolds(ix', key) {
      assert PresenceHolds(ix, key);
      assert key != mine ==> ConnsOf(ix'.subs, key) == ConnsOf(ix.subs, key);
    }
  }

  /** A connection's cleanup; the character went offline exactly when it was the last. */
  lemma UnregisterKeepsInv(ix: Index, c: Conn, topics: map<Key, seq<Entry>>)
    requires Inv(ix) && c in ix.subs && Stripped(ix.topics, topics, c, ix.subs[c])
    ensures Inv(Unregistered(ix, c, topics))
    ensures CountOf(ix.presence, (c.world, c.character)) == 1 <==> ConnsOf(Unregistered(ix, c, topics).subs, (c.world, c.character)) == {}
    ensures CountOf(ix.presence, (c.world, c.character)) >= 1
  {
    SessionsAreOwn(ix);
    SessionsKept(ix, Unregistered(ix, c, topics));
    UnregisterKeepsPresence(ix, c, topics);
    StrippedKeepsTopics(ix, Unregistered(ix, c, topics), c, ix.subs[c]);
  }

  lemma PublishKeepsInv(ix: Index, key: Key)
    requires Inv(ix)
    ensures Inv(Published(ix, key))
  {
    var ix' := Published(ix, key);
    if ix' != ix {
      SessionsAreOwn(ix);
      SessionsKept(ix, ix');
      PresenceKept(ix, ix');
      RetainKeepsExactly(ix.topics[key], IsFresh(ix.sessions));
      forall k: Key ensures KeyHolds(ix', k) {
        assert KeyHolds(ix, k);
      }
      forall c | c in ix'.subs ensures IndexedConn(ix', c) {
        assert IndexedConn(ix, c);
      }
    }
  }

  // ── a publish agrees with the scan ───────────────────────────────────────

  /** The scan: current for its session, in that world, holding the topic. */
  ghost predicate Receives(ix: Index, key: Key, c: Conn) {
    c in ix.subs && Current(ix.sessions, c) && c.world == key.0 && key.1 in ix.subs[c]
  }

  lemma {:induction false} TargetsAreFreshEntries(sessions: map<Uuid, Conn>, entries: seq<Entry>)
    requires forall s :: s in sessions ==> sessions[s].session == s
    ensures forall c :: c in Targets(sessions, entries) <==> Current(sessions, c) && EntryOf(c) in entries
    ensures NoDuplicates(entries) ==> NoDuplicates(Targets(sessions, entries))
  {
    if entries != [] {
      TargetsAreFreshEntries(sessions, entries[1..]);
      var rest := Targets(sessions, entries[1..]);
      var first := if Fresh(sessions, entries[0]) then [sessions[entries[0].0]] else [];
      assert Targets(sessions, entries) == first + rest;
      assert NoDuplicates(entries) ==> entries[0] !in entries[1..];
      forall c ensures c in first <==> Current(sessions, c) && EntryOf(c) == entries[0] {}
      assert NoDuplicates(entries) && first != [] ==> first[0] !in rest;
    }
  }

  /** A current connection is listed under a topic exactly when the scan finds it. */
  lemma ListedIsTheScan(ix: Index, key: Key)
    requires Inv(ix)
    ensures NoDuplicates(EntriesOf(ix.topics, key))
    ensures forall c :: Current(ix.sessions, c) && EntryOf(c) in EntriesOf(ix.topics, key) <==> Receives(ix, key, c)
  {
    var entries := EntriesOf(ix.topics, key);
    assert KeyHolds(ix, key);
    SessionsAreOwn(ix);
    forall c ensures Current(ix.sessions, c) && EntryOf(c) in entries <==> Receives(ix, key, c) {
      if Current(ix.sessions, c) && EntryOf(c) in entries {
        assert EntryHolds(ix.subs, key, EntryOf(c));
        var d :| d in ix.subs && EntryOf(c) == EntryOf(d) && key.0 == d.world && key.1 in ix.subs[d];
        assert SameNumber(c, d);
      }
      if Receives(ix, key, c) {
        assert IndexedConn(ix, c);
      }
    }
  }

  /** Publishing sends to exactly the connections the scan finds, each once. */
  lemma PublishIsTheScan(ix: Index, key: Key)
    requires Inv(ix)
    ensures var targets := Targets(ix.sessions, EntriesOf(ix.topics, key));
            NoDuplicates(targets) && forall c :: c in targets <==> Receives(ix, key, c)
  {
    ListedIsTheScan(ix, key);
    SessionsAreOwn(ix);
    TargetsAreFreshEntries(ix.sessions, EntriesOf(ix.topics, key));
  }

  lemma CleanupSparesScan(ix: Index, c: Conn, topics: map<Key, seq<Entry>>, key: Key, d: Conn)
    requires c in ix.subs
    ensures Receives(Unregistered(ix, c, topics), key, d) <==> d != c && Receives(ix, key, d)
  {
  }

  /** A connection's own cleanup, late or not, takes nobody else off a topic. */
  lemma CleanupSparesOthers(ix: Index, c: Conn, topics: map<Key, seq<Entry>>, key: Key, d: Conn)
    requires Inv(ix) && c in ix.subs && Stripped(ix.topics, topics, c, ix.subs[c])
    ensures var after := Unregistered(ix, c, topics);
            d in Targets(after.sessions, EntriesOf(after.topics, key))
            <==> d != c && d in Targets(ix.sessions, EntriesOf(ix.topics, key))
  {
    var after := Unregistered(ix, c, topics);
    UnregisterKeepsInv(ix, c, topics);
    PublishIsTheScan(ix, key);
    PublishIsTheScan(after, key);
    CleanupSparesScan(ix, c, topics, key, d);
    assert Receives(after, key, d) <==> d in Targets(after.sessions, EntriesOf(after.topics, key));
  }

  // ── runs ─────────────────────────────────────────────────────────────────

  datatype Event =
    | Register(c: Conn)
    | Subscribe(c: Conn, topic: Topic)
    | Unsubscribe(c: Conn, topic: Topic)
    | DropCharacter(world: Uuid, character: Uuid, topic: Topic)
    | Unregister(c: Conn)
    | Publish(key: Key)

  /** `unregister`'s loop, over the held topics in some order. */
  ghost function StripAll(topics: map<Key, seq<Entry>>, c: Conn, held: set<Topic>): map<Key, seq<Entry>> {
    if held == {} then topics
    else
      var topic :| topic in held;
      StripAll(WithoutEntry(topics, (c.world, topic), c), c, held - {topic})
  }

  lemma {:induction false} StripAllStrips(topics: map<Key, seq<Entry>>, c: Conn, held: set<Topic>)
    ensures Stripped(topics, StripAll(topics, c, held), c, held)
    decreases held
  {
    if held != {} {
      var topic :| topic in held && StripAll(topics, c, held) == StripAll(WithoutEntry(topics, (c.world, topic), c), c, held - {topic});
      var topics1 := WithoutEntry(topics, (c.world, topic), c);
      StripAllStrips(topics1, c, held - {topic});
      forall key: Key ensures EntriesOf(StripAll(topics, c, held), key) ==
        if key.0 == c.world && key.1 in held then Retain(EntriesOf(topics, key), NotOf(c)) else EntriesOf(topics, key) {
        assert EntriesOf(topics1, key) == if key == (c.world, topic) then Retain(EntriesOf(topics, key), NotOf(c)) else EntriesOf(topics, key);
      }
    }
  }

  function SessionsOf(sessions: map<Uuid, Conn>, world: Uuid, character: Uuid): set<Uuid> {
    set s | s in sessions && sessions[s].world == world && sessions[s].character == character
  }

  /** The current connections of a character. */
  function LiveOf(sessions: map<Uuid, Conn>, world: Uuid, character: Uuid): set<Conn> {
    set s | s in sessions && sessions[s].world == world && sessions[s].character == character :: sessions[s]
  }

  /** A topic taken from every current connection of a character. */
  ghost function Dropped(ix: Index, done: set<Uuid>, topic: Topic): map<Conn, set<Topic>> {
    map c | c in ix.subs :: if Current(ix.sessions, c) && c.session in done then ix.subs[c] - {topic} else ix.subs[c]
  }

  lemma NothingDropped(ix: Index, topic: Topic)
    ensures Dropped(ix, {}, topic) == ix.subs
  {
  }

  lemma DroppedGrows(ix: Index, ix1: Index, done: set<Uuid>, topic: Topic, s: Uuid)
    requires SessionsHold(ix) && s in ix.sessions && ix1.subs == Dropped(ix, done, topic)
    ensures ix.sessions[s] in ix1.subs
    ensures Unsubscribed(ix1, ix.sessions[s], topic).subs == Dropped(ix, done + {s}, topic)
  {
    SessionsAreOwn(ix);
    var c := ix.sessions[s];
    assert topic !in ix1.subs[c] ==> ix1.subs[c] == ix.subs[c] - {topic};
    assert topic in ix1.subs[c] ==> ix1.subs[c] - {topic} == ix.subs[c] - {topic};
  }

  ghost function UnsubscribeAll(ix: Index, conns: set<Conn>, topic: Topic): (ix': Index)
    requires conns <= ix.subs.Keys
    ensures ix'.sessions == ix.sessions && ix'.subs.Keys == ix.subs.Keys
    decreases conns
  {
    if conns == {} then ix
    else
      var c :| c in conns;
      UnsubscribeAll(Unsubscribed(ix, c, topic), conns - {c}, topic)
  }

  lemma {:induction false} UnsubscribeAllKeepsInv(ix: Index, conns: set<Conn>, topic: Topic)
    requires Inv(ix) && conns <= ix.subs.Keys
    ensures Inv(UnsubscribeAll(ix, conns, topic))
    decreases conns
  {
    if conns != {} {
      var c :| c in conns && UnsubscribeAll(ix, conns, topic) == UnsubscribeAll(Unsubscribed(ix, c, topic), conns - {c}, topic);
      UnsubscribeKeepsInv(ix, c, topic);
      UnsubscribeAllKeepsInv(Unsubscribed(ix, c, topic), conns - {c}, topic);
    }
  }

  /** Dropping a topic takes it from exactly these connections. */
  lemma {:induction false} UnsubscribeAllIsExact(ix: Index, conns: set<Conn>, topic: Topic, d: Conn)
    requires conns <= ix.subs.Keys && d in ix.subs
    ensures UnsubscribeAll(ix, conns, topic).subs[d] == if d in conns then ix.subs[d] - {topic} else ix.subs[d]
    decreases conns
  {
    if conns != {} {
      var c :| c in conns && UnsubscribeAll(ix, conns, topic) == UnsubscribeAll(Unsubscribed(ix, c, topic), conns - {c}, topic);
      UnsubscribeAllIsExact(Unsubscribed(ix, c, topic), conns - {c}, topic, d);
    }
  }

  /** In any order, that is what the loop over the character's sessions leaves. */
  lemma DropLeaves(ix: Index, world: Uuid, character: Uuid, topic: Topic)
    requires SessionsHold(ix)
    ensures LiveOf(ix.sessions, world, character) <= ix.subs.Keys
    ensures UnsubscribeAll(ix, LiveOf(ix.sessions, world, character), topic).subs
            == Dropped(ix, SessionsOf(ix.sessions, world, character), topic)
  {
    SessionsAreOwn(ix);
    var conns := LiveOf(ix.sessions, world, character);
    var dropped := Dropped(ix, SessionsOf(ix.sessions, world, character), topic);
    forall c | c in ix.subs ensures UnsubscribeAll(ix, conns, topic).subs[c] == dropped[c] {
      UnsubscribeAllIsExact(ix, conns, topic, c);
      assert c in conns <==> Current(ix.sessions, c) && c.session in SessionsOf(ix.sessions, world, character);
    }
  }

  /** Events of connections that are not registered change nothing, and a connection
      number is used once. */
  ghost function Step(ix: Index, e: Event): Index
    requires Inv(ix)
  {
    match e
    case Register(c) => if c.connSeq in ix.used then ix else Registered(ix, c)
    case Subscribe(c, topic) => if c in ix.subs then Subscribed(ix, c, topic) else ix
    case Unsubscribe(c, topic) => if c in ix.subs then Unsubscribed(ix, c, topic) else ix
    case DropCharacter(world, character, topic) =>
      SessionsAreOwn(ix);
      UnsubscribeAll(ix, LiveOf(ix.sessions, world, character), topic)
    case Unregister(c) => if c in ix.subs then Unregistered(ix, c, StripAll(ix.topics, c, ix.subs[c])) else ix
    case Publish(key) => Published(ix, key)
  }

  lemma StepKeepsInv(ix: Index, e: Event)
    requires Inv(ix)
    ensures Inv(Step(ix, e))
  {
    match e
    case Register(c) => if c.connSeq !in ix.used { RegisterKeepsInv(ix, c); }
    case Subscribe(c, topic) => if c in ix.subs { SubscribeKeepsInv(ix, c, topic); }
    case Unsubscribe(c, topic) => if c in ix.subs { UnsubscribeKeepsInv(ix, c, topic); }
    case DropCharacter(world, character, topic) =>
      SessionsAreOwn(ix);
      UnsubscribeAllKeepsInv(ix, LiveOf(ix.sessions, world, character), topic);
    case Unregister(c) =>
      if c in ix.subs {
        StripAllStrips(ix.topics, c, ix.subs[c]);
        UnregisterKeepsInv(ix, c, StripAll(ix.topics, c, ix.subs[c]));
      }
    case Publish(key) => PublishKeepsInv(ix, key);
  }

  const EMPTY: Index := Index(map[], map[], map[], map[], {})

  ghost function Run(events: seq<Event>): (ix: Index)
    ensures Inv(ix)
  {
    if events == [] then
      EmptyHolds();
      EMPTY
    else
      var before := Run(events[..|events| - 1]);
      StepKeepsInv(before, events[|events| - 1]);
      Step(before, events[|events| - 1])
  }

  lemma EmptyHolds()
    ensures Inv(EMPTY)
  {
    forall key ensures PresenceHolds(EMPTY, key) {
      assert ConnsOf(EMPTY.subs, key) == {};
    }
  }

  /** After any run, a publish reaches exactly the scan's connections, each once. */
  lemma PublishIsExactOnRuns(events: seq<Event>, key: Key)
    ensures var ix := Run(events);
            var targets := Targets(ix.sessions, EntriesOf(ix.topics, key));
            NoDuplicates(targets) && forall c :: c in targets <==> Receives(ix, key, c)
  {
    PublishIsTheScan(Run(events), key);
  }

  /** After any run, a character counts as online exactly when it has a registered
      connection that has not cleaned up yet. */
  lemma PresenceIsExactOnRuns(events: seq<Event>, key: (Uuid, Uuid))
    ensures var ix := Run(events);
            CountOf(ix.presence, key) == |ConnsOf(ix.subs, key)|
            && (key in ix.presence <==> ConnsOf(ix.subs, key) != {})
  {
    assert PresenceHolds(Run(events), key);
  }

  // ── who receives, event by event ─────────────────────────────────────────

  /** Who a publish reaches after one more event: a subscription adds its connection if that
      is the session's current one; an unsubscription, a drop of the character, a cleanup
      and a takeover of the session take away exactly theirs; a publish takes nobody away. */
  lemma WhoReceivesAfter(events: seq<Event>, e: Event, key: Key, d: Conn)
    ensures var ix := Run(events);
            Receives(Step(ix, e), key, d) <==>
              match e
              case Register(c) => Receives(ix, key, d) && (c.connSeq !in ix.used ==> d.session != c.session)
              case Subscribe(c, topic) =>
                Receives(ix, key, d) || (d == c && c in ix.subs && Current(ix.sessions, c) && key == (c.world, topic))
              case Unsubscribe(c, topic) => Receives(ix, key, d) && !(d == c && key.1 == topic)
              case DropCharacter(world, character, topic) =>
                Receives(ix, key, d) && !(d.world == world && d.character == character && key.1 == topic)
              case Unregister(c) => Receives(ix, key, d) && d != c
              case Publish(_) => Receives(ix, key, d)
  {
    var ix := Run(events);
    SessionsAreOwn(ix);
    match e
    case Register(c) => if c.connSeq !in ix.used { RegisterReceives(ix, c, key, d); }
    case DropCharacter(world, character, topic) => DropReceives(ix, world, character, topic, key, d);
    case Subscribe(_, _) =>
    case Unsubscribe(_, _) =>
    case Unregister(_) =>
    case Publish(_) =>
  }

  lemma RegisterReceives(ix: Index, c: Conn, key: Key, d: Conn)
    requires Inv(ix) && c.connSeq !in ix.used
    ensures Receives(Registered(ix, c), key, d) <==> Receives(ix, key, d) && d.session != c.session
  {
    assert d in ix.subs ==> NumberUsed(ix, d);
  }

  lemma DropReceives(ix: Index, world: Uuid, character: Uuid, topic: Topic, key: Key, d: Conn)
    requires Inv(ix)
    ensures Receives(Step(ix, DropCharacter(world, character, topic)), key, d) <==>
              Receives(ix, key, d) && !(d.world == world && d.character == character && key.1 == topic)
  {
    SessionsAreOwn(ix);
    var conns := LiveOf(ix.sessions, world, character);
    if d in ix.subs {
      UnsubscribeAllIsExact(ix, conns, topic, d);
    }
  }

  /** A connection is registered from its registration under a number not used before until
      its cleanup, and the session's current one from then until that or a newer one. */
  lemma WhoIsRegisteredAfter(events: seq<Event>, e: Event, d: Conn)
    ensures var ix := Run(events);
            var ix' := Step(ix, e);
            && (d in ix'.subs <==> (d in ix.subs && e != Unregister(d)) || (e == Register(d) && d.connSeq !in ix.used))
            && (Current(ix'.sessions, d) <==>
                  || (e == Register(d) && d.connSeq !in ix.used)
                  || (Current(ix.sessions, d) && e != Unregister(d)
                      && (e.Register? && e.c.connSeq !in ix.used ==> e.c.session != d.session)))
  {
    var ix := Run(events);
    SessionsAreOwn(ix);
    assert d in ix.subs ==> NumberUsed(ix, d);
  }

  /** What a registered connection, current or superseded, holds after one more event. */
  lemma WhatIsHeldAfter(events: seq<Event>, e: Event, d: Conn, held: Topic)
    requires d in Run(events).subs
    ensures var ix := Run(events);
            var ix' := Step(ix, e);
            d in ix'.subs ==>
              (held in ix'.subs[d] <==>
                match e
                case Subscribe(c, topic) => held in ix.subs[d] || (c == d && topic == held)
                case Unsubscribe(c, topic) => held in ix.subs[d] && !(c == d && topic == held)
                case DropCharacter(world, character, topic) =>
                  held in ix.subs[d]
                  && !(Current(ix.sessions, d) && d.world == world && d.character == character && topic == held)
                case _ => held in ix.subs[d])
  {
    var ix := Run(events);
    SessionsAreOwn(ix);
    assert NumberUsed(ix, d);
    if e.DropCharacter? {
      UnsubscribeAllIsExact(ix, LiveOf(ix.sessions, e.world, e.character), e.topic, d);
    }
  }
}
