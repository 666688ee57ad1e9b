/** Servers and the channels they own: a server's channels carry a copy of its roster,
    kept in step by the server operations and guarded against the channel ones. */
module Servers {
  import opened Common

  type Id = int
  /** Lengths are counted in bytes. */
  type Text = seq<bv8>

  datatype Kind = Dm | Group | Voice
  /** A row of `servers` with its `server_members`. */
  datatype Server = Server(world: Id, owner: Id, members: set<Id>)
  /** A row of `channels` with its `channel_members`. */
  datatype Channel = Channel(world: Id, kind: Kind, server: Option<Id>, pair: Option<(Id, Id)>, roster: set<Id>)

  /** `characters` says which world each character lives in. */
  datatype Tables = Tables(characters: map<Id, Id>, servers: map<Id, Server>, channels: map<Id, Channel>)

  const NAME_MAX := 128
  const CATEGORY_MAX := 64
  const SERVER_MEMBERS_MAX: int := 200
  const SERVER_CHANNELS_MAX: int := 50

  predicate Lives(t: Tables, world: Id, c: Id) { c in t.characters && t.characters[c] == world }
  predicate VisibleServer(t: Tables, world: Id, s: Id) { s in t.servers && t.servers[s].world == world }
  predicate VisibleChannel(t: Tables, world: Id, c: Id) { c in t.channels && t.channels[c].world == world }

  predicate BadName(name: Text) { name == [] || |name| > NAME_MAX }

  function ChannelsOf(channels: map<Id, Channel>, s: Id): set<Id> {
    set c | c in channels && channels[c].server == Some(s)
  }

  /** What adding or removing a member does to every channel of the server. */
  function Mirrored(channels: map<Id, Channel>, s: Id, target: Id, add: bool): map<Id, Channel> {
    map c | c in channels ::
      if channels[c].server == Some(s) then
        channels[c].(roster := if add then channels[c].roster + {target} else channels[c].roster - {target})
      else channels[c]
  }

  // ── operations ───────────────────────────────────────────────────────────

  /** `bannerLive` says whether a given banner is live media. */
  function DoCreate(t: Tables, world: Id, who: Id, name: Text, bannerLive: Option<bool>, id: Id): (Tables, Result<Id>) {
    if BadName(name) then (t, Err(Invalid))
    else if bannerLive == Some(false) then (t, Err(Invalid))
    else if id in t.servers then (t, Err(DuplicateKey))
    else (t.(servers := t.servers[id := Server(world, who, {who})]), Ok(id))
  }

  /** The result are the channels whose subscriptions are to be dropped. */
  function DoMemberChange(t: Tables, world: Id, who: Id, s: Id, target: Id, add: bool): (Tables, Result<set<Id>>) {
    if !VisibleServer(t, world, s) then (t, Err(NotFound))
    else
      var server := t.servers[s];
      if add then
        if who != server.owner then (t, Err(Forbidden))
        else if !Lives(t, world, target) then (t, Err(Invalid))
        else if |server.members| >= SERVER_MEMBERS_MAX then (t, Err(Conflict))
        else if target in server.members then (t, Ok({}))
        else
          (t.(servers := t.servers[s := server.(members := server.members + {target})],
              channels := Mirrored(t.channels, s, target, true)), Ok({}))
      else
        if target == server.owner then (t, Err(Conflict))
        else if who != server.owner && who != target then (t, Err(Forbidden))
        else if target !in server.members then (t, Ok({}))
        else
          (t.(servers := t.servers[s := server.(members := server.members - {target})],
              channels := Mirrored(t.channels, s, target, false)), Ok(ChannelsOf(t.channels, s)))
  }

  function DoChannelCreate(t: Tables, world: Id, who: Id, s: Id, name: Text, kind: Kind, category: Option<Text>, id: Id): (Tables, Result<Id>) {
    if BadName(name) then (t, Err(Invalid))
    else if kind.Dm? then (t, Err(Invalid))
    else if category.Some? && (category.value == [] || |category.value| > CATEGORY_MAX) then (t, Err(Invalid))
    else if !VisibleServer(t, world, s) then (t, Err(NotFound))
    else if t.servers[s].owner != who then (t, Err(Forbidden))
    else if |ChannelsOf(t.channels, s)| >= SERVER_CHANNELS_MAX then (t, Err(Conflict))
    else if id in t.channels then (t, Err(DuplicateKey))
    else (t.(channels := t.channels[id := Channel(world, kind, Some(s), None, t.servers[s].members)]), Ok(id))
  }

  /** `channels.member_*`: plain groups only. */
  function DoGroupChange(t: Tables, world: Id, c: Id, actor: Id, target: Id, add: bool): (Tables, Result<bool>) {
    if !VisibleChannel(t, world, c) then (t, Err(NotFound))
    else
      var channel := t.channels[c];
      if channel.server.Some? then (t, Err(Conflict))
      else if !channel.kind.Group? then (t, Err(Conflict))
      else if actor !in channel.roster then (t, Err(Forbidden))
      else if add && !Lives(t, world, target) then (t, Err(Invalid))
      else
        var roster := if add then channel.roster + {target} else channel.roster - {target};
        (t.(channels := t.channels[c := channel.(roster := roster)]), Ok(roster != channel.roster))
  }

  function Distinct(s: seq<Id>): set<Id> { set x | x in s }

  function DoCreateGroup(t: Tables, world: Id, creator: Id, members: seq<Id>, id: Id): (Tables, Result<Id>) {
    var found := set m | m in members && Lives(t, world, m);
    if members != [] && |found| != |members| then (t, Err(Invalid))
    else if id in t.channels then (t, Err(DuplicateKey))
    else if creator in members then (t, Err(DuplicateKey))
    else (t.(channels := t.channels[id := Channel(world, Group, None, None, {creator} + Distinct(members))]), Ok(id))
  }

  function Ordered(a: Id, b: Id): (Id, Id) { if a < b then (a, b) else (b, a) }

  predicate IsThread(channel: Channel, world: Id, pair: (Id, Id)) {
    channel.world == world && channel.kind.Dm? && channel.pair == Some(pair)
  }

  /** `callee` is what the directory resolved the number to. */
  ghost function DoOpenDirect(t: Tables, world: Id, caller: Id, callee: Option<Id>, id: Id): (Tables, Result<Id>) {
    if callee.None? then (t, Err(NotFound))
    else if callee.value == caller then (t, Err(Invalid))
    else
      var pair := Ordered(caller, callee.value);
      if exists c :: c in t.channels && IsThread(t.channels[c], world, pair) then
        var c :| c in t.channels && IsThread(t.channels[c], world, pair);
        (t, Ok(c))
      else if id in t.channels then (t, Err(DuplicateKey))
      else (t.(channels := t.channels[id := Channel(world, Dm, None, Some(pair), {pair.0, pair.1})]), Ok(id))
  }

  datatype Event =
    | Create(world: Id, who: Id, name: Text, bannerLive: Option<bool>, id: Id)
    | MemberChange(world: Id, who: Id, server: Id, target: Id, add: bool)
    | ChannelCreate(world: Id, who: Id, server: Id, name: Text, kind: Kind, category: Option<Text>, id: Id)
    | GroupChange(world: Id, channel: Id, actor: Id, target: Id, add: bool)
    | CreateGroup(world: Id, creator: Id, members: seq<Id>, id: Id)
    | OpenDirect(world: Id, caller: Id, callee: Option<Id>, id: Id)

  ghost function Step(t: Tables, e: Event): Tables {
    match e
    case Create(w, who, name, bannerLive, id) => DoCreate(t, w, who, name, bannerLive, id).0
    case MemberChange(w, who, s, target, add) => DoMemberChange(t, w, who, s, target, add).0
    case ChannelCreate(w, who, s, name, kind, category, id) => DoChannelCreate(t, w, who, s, name, kind, category, id).0
    case GroupChange(w, c, actor, target, add) => DoGroupChange(t, w, c, actor, target, add).0
    case CreateGroup(w, creator, members, id) => DoCreateGroup(t, w, creator, members, id).0
    case OpenDirect(w, caller, callee, id) => DoOpenDirect(t, w, caller, callee, id).0
  }

  ghost function Run(characters: map<Id, Id>, events: seq<Event>): Tables {
    if events == [] then Tables(characters, map[], map[])
    else Step(Run(characters, events[..|events| - 1]), events[|events| - 1])
  }

  // ── invariant ────────────────────────────────────────────────────────────

  /** A server's channel has the server's roster, to the member. */
  ghost predicate MirrorHolds(t: Tables, c: Id)
    requires c in t.channels
  {
    t.channels[c].server.Some? ==>
      var s := t.channels[c].server.value;
      && s in t.servers && t.channels[c].roster == t.servers[s].members
      && t.channels[c].world == t.servers[s].world && !t.channels[c].kind.Dm?
  }
  /** A direct thread has exactly its pair. */
  ghost predicate PairHolds(t: Tables, c: Id)
    requires c in t.channels
  {
    t.channels[c].kind.Dm? ==>
      && t.channels[c].server.None? && t.channels[c].pair.Some?
      && var pair := t.channels[c].pair.value;
         pair.0 < pair.1 && t.channels[c].roster == {pair.0, pair.1}
  }
  ghost predicate ServerHolds(t: Tables, s: Id)
    requires s in t.servers
  {
    && t.servers[s].owner in t.servers[s].members
    && |t.servers[s].members| <= SERVER_MEMBERS_MAX && |ChannelsOf(t.channels, s)| <= SERVER_CHANNELS_MAX
  }
  ghost predicate SameThread(c: Channel, d: Channel) { c.kind.Dm? && d.kind.Dm? && c.world == d.world && c.pair == d.pair }

  ghost predicate Holds(t: Tables) {
    && (forall c {:trigger MirrorHolds(t, c)} :: c in t.channels ==> MirrorHolds(t, c))
    && (forall c {:trigger PairHolds(t, c)} :: c in t.channels ==> PairHolds(t, c))
    && (forall s {:trigger ServerHolds(t, s)} :: s in t.servers ==> ServerHolds(t, s))
    && (forall c, d {:trigger SameThread(t.channels[c], t.channels[d])} ::
          c in t.channels && d in t.channels && SameThread(t.channels[c], t.channels[d]) ==> c == d)
  }

  lemma OneChannelMore(t: Tables, id: Id, channel: Channel)
    requires Holds(t) && id !in t.channels
    requires var t' := t.(channels := t.channels[id := channel]); MirrorHolds(t', id) && PairHolds(t', id)
    requires channel.server.Some? ==> |ChannelsOf(t.channels, channel.server.value)| < SERVER_CHANNELS_MAX
    requires forall c :: c in t.channels ==> !SameThread(t.channels[c], channel)
    ensures Holds(t.(channels := t.channels[id := channel]))
  {
    var t' := t.(channels := t.channels[id := channel]);
    forall c | c in t'.channels ensures MirrorHolds(t', c) && PairHolds(t', c) {
      assert c != id ==> MirrorHolds(t, c) && PairHolds(t, c);
    }
    forall s | s in t'.servers ensures ServerHolds(t', s) {
      assert ServerHolds(t, s);
      assert ChannelsOf(t'.channels, s) == ChannelsOf(t.channels, s) + (if channel.server == Some(s) then {id} else {});
    }
    forall c, d | c in t'.channels && d in t'.channels && SameThread(t'.channels[c], t'.channels[d]) ensures c == d {
      if c != id && d != id {
        assert SameThread(t.channels[c], t.channels[d]);
      }
    }
  }

  lemma MemberChangeHolds(t: Tables, s: Id, target: Id, add: bool)
    requires Holds(t) && s in t.servers
    requires if add then |t.servers[s].members| < SERVER_MEMBERS_MAX else target != t.servers[s].owner
    ensures var members := if add then t.servers[s].members + {target} else t.servers[s].members - {target};
            Holds(t.(servers := t.servers[s := t.servers[s].(members := members)], channels := Mirrored(t.channels, s, target, add)))
  {
    var members := if add then t.servers[s].members + {target} else t.servers[s].members - {target};
    var t' := t.(servers := t.servers[s := t.servers[s].(members := members)], channels := Mirrored(t.channels, s, target, add));
    forall c | c in t'.channels ensures MirrorHolds(t', c) && PairHolds(t', c) {
      assert MirrorHolds(t, c) && PairHolds(t, c);
    }
    forall r | r in t'.servers ensures ServerHolds(t', r) {
      assert ServerHolds(t, r);
      assert ChannelsOf(t'.channels, r) == ChannelsOf(t.channels, r);
      SetSizes(t.servers[s].members, target);
    }
    forall c, d | c in t'.channels && d in t'.channels && SameThread(t'.channels[c], t'.channels[d]) ensures c == d {
      assert SameThread(t.channels[c], t.channels[d]);
    }
  }

  lemma SetSizes(a: set<Id>, x: Id)
    ensures |a + {x}| <= |a| + 1 && |a - {x}| <= |a|
  {
    if x in a {
      assert a + {x} == a;
    } else {
      assert a - {x} == a;
    }
  }

  lemma GroupChangeHolds(t: Tables, c: Id, roster: set<Id>)
    requires Holds(t) && c in t.channels && t.channels[c].server.None? && t.channels[c].kind.Group?
    ensures Holds(t.(channels := t.channels[c := t.channels[c].(roster := roster)]))
  {
    var t' := t.(channels := t.channels[c := t.channels[c].(roster := roster)]);
    forall d | d in t'.channels ensures MirrorHolds(t', d) && PairHolds(t', d) {
      assert MirrorHolds(t, d) && PairHolds(t, d);
    }
    forall s | s in t'.servers ensures ServerHolds(t', s) {
      assert ServerHolds(t, s);
      assert ChannelsOf(t'.channels, s) == ChannelsOf(t.channels, s);
    }
    forall d, e | d in t'.channels && e in t'.channels && SameThread(t'.channels[d], t'.channels[e]) ensures d == e {
      assert SameThread(t.channels[d], t.channels[e]);
    }
  }

  lemma CreateHolds(t: Tables, id: Id, world: Id, who: Id)
    requires Holds(t) && id !in t.servers
    ensures Holds(t.(servers := t.servers[id := Server(world, who, {who})]))
  {
    var t' := t.(servers := t.servers[id := Server(world, who, {who})]);
    forall c | c in t'.channels ensures MirrorHolds(t', c) && PairHolds(t', c) {
      assert MirrorHolds(t, c) && PairHolds(t, c);
    }
    forall s | s in t'.servers ensures ServerHolds(t', s) {
      if s == id {
        forall c ensures c !in ChannelsOf(t.channels, id) {
          assert c in t.channels ==> MirrorHolds(t, c);
        }
        assert ChannelsOf(t.channels, id) == {};
      } else {
        assert ServerHolds(t, s);
      }
    }
    forall c, d | c in t'.channels && d in t'.channels && SameThread(t'.channels[c], t'.channels[d]) ensures c == d {
      assert SameThread(t.channels[c], t.channels[d]);
    }
  }

  lemma StepHolds(t: Tables, e: Event)
    requires Holds(t)
    ensures Holds(Step(t, e)) && Step(t, e).characters == t.characters
  {
    match e
    case Create(w, who, name, bannerLive, id) =>
      if id !in t.servers { CreateHolds(t, id, w, who); }
    case MemberChange(w, who, s, target, add) =>
      if Step(t, e) != t { MemberChangeHolds(t, s, target, add); }
    case ChannelCreate(w, who, s, name, kind, category, id) =>
      if Step(t, e) != t { OneChannelMore(t, id, Channel(w, kind, Some(s), None, t.servers[s].members)); }
    case GroupChange(w, c, actor, target, add) =>
      if DoGroupChange(t, w, c, actor, target, add).1.Ok? { GroupChangeHolds(t, c, Step(t, e).channels[c].roster); }
    case CreateGroup(w, creator, members, id) =>
      if Step(t, e) != t { OneChannelMore(t, id, Step(t, e).channels[id]); }
    case OpenDirect(w, caller, callee, id) =>
      if Step(t, e) != t {
        var channel := Step(t, e).channels[id];
        forall c | c in t.channels ensures !SameThread(t.channels[c], channel) {
          assert !IsThread(t.channels[c], w, channel.pair.value);
        }
        OneChannelMore(t, id, channel);
      }
  }

  lemma {:induction false} RunHolds(characters: map<Id, Id>, events: seq<Event>)
    ensures Holds(Run(characters, events)) && Run(characters, events).characters == characters
  {
    if events != [] {
      RunHolds(characters, events[..|events| - 1]);
      StepHolds(Run(characters, events[..|events| - 1]), events[|events| - 1]);
    }
  }

  // ── main results ─────────────────────────────────────────────────────────

  /** After any run of server and channel commands, each channel of a server has exactly
      the server's members, the owner among them, and the caps hold. */
  lemma RostersMirrorTheServer(characters: map<Id, Id>, events: seq<Event>, s: Id, c: Id)
    ensures var t := Run(characters, events);
            && (s in t.servers ==>
                  t.servers[s].owner in t.servers[s].members
                  && |t.servers[s].members| <= 200 && |ChannelsOf(t.channels, s)| <= 50)
            && (c in t.channels && t.channels[c].server == Some(s) ==>
                  s in t.servers && t.channels[c].roster == t.servers[s].members && t.channels[c].world == t.servers[s].world)
  {
    RunHolds(characters, events);
    var t := Run(characters, events);
    assert s in t.servers ==> ServerHolds(t, s);
    assert c in t.channels ==> MirrorHolds(t, c);
  }

  /** A direct thread is its two parties' and stays so. */
  lemma DirectThreadIsItsPair(characters: map<Id, Id>, events: seq<Event>, c: Id)
    ensures var t := Run(characters, events);
            c in t.channels && t.channels[c].kind.Dm? ==>
              t.channels[c].pair.Some? && t.channels[c].roster == {t.channels[c].pair.value.0, t.channels[c].pair.value.1}
  {
    RunHolds(characters, events);
    var t := Run(characters, events);
    assert c in t.channels ==> PairHolds(t, c);
  }

  /** Removal takes the target out of the server and all its channels, and names exactly
      those channels for the subscription drop. */
  lemma RemovalIsComplete(characters: map<Id, Id>, events: seq<Event>, world: Id, who: Id, s: Id, target: Id)
    ensures var t := Run(characters, events);
            var (t', r) := DoMemberChange(t, world, who, s, target, false);
            r.Ok? ==>
              && target !in t'.servers[s].members
              && (forall c :: c in t'.channels && t'.channels[c].server == Some(s) ==> target !in t'.channels[c].roster)
              && (forall c :: c in r.value <==> c in t.channels && t.channels[c].server == Some(s) && target in t.channels[c].roster)
  {
    RunHolds(characters, events);
    var t := Run(characters, events);
    forall c | c in t.channels ensures MirrorHolds(t, c) {}
  }

  /** Adding somebody who is already in changes nothing and succeeds, except on a full
      server, where it conflicts. */
  lemma ReAddIsANoOpIffNotFull(t: Tables, world: Id, s: Id, target: Id)
    requires VisibleServer(t, world, s) && Lives(t, world, target) && target in t.servers[s].members
    ensures var (t', r) := DoMemberChange(t, world, t.servers[s].owner, s, target, true);
            t' == t && (r == Ok({}) <==> |t.servers[s].members| < SERVER_MEMBERS_MAX)
            && (r == Err(Conflict) <==> |t.servers[s].members| >= SERVER_MEMBERS_MAX)
  {
  }

  /** The event takes this member out of this server, if anything does. */
  predicate Removes(e: Event, s: Id, target: Id) {
    e.MemberChange? && !e.add && e.server == s && e.target == target
  }

  lemma StepKeepsMember(t: Tables, e: Event, s: Id, target: Id)
    requires s in t.servers && target in t.servers[s].members && !Removes(e, s, target)
    ensures var t' := Step(t, e); s in t'.servers && target in t'.servers[s].members && t'.servers[s].world == t.servers[s].world
  {
  }

  /** A member stays one, in the server and in each of its channels, until a removal names
      them; adding them again meanwhile changes nothing and succeeds exactly while the
      server is not full, and conflicts once it is. */
  lemma {:induction false} MembersStay(characters: map<Id, Id>, events: seq<Event>, i: nat, s: Id, target: Id, c: Id)
    requires i <= |events|
    requires var t := Run(characters, events[..i]);
             s in t.servers && target in t.servers[s].members && Lives(t, t.servers[s].world, target)
    requires forall j :: i <= j < |events| ==> !Removes(events[j], s, target)
    ensures var t := Run(characters, events);
            && s in t.servers && target in t.servers[s].members && Lives(t, t.servers[s].world, target)
            && (c in t.channels && t.channels[c].server == Some(s) ==> target in t.channels[c].roster)
            && var (t', r) := DoMemberChange(t, t.servers[s].world, t.servers[s].owner, s, target, true);
            t' == t && r == if |t.servers[s].members| < SERVER_MEMBERS_MAX then Ok({}) else Err(Conflict)
    decreases |events|
  {
    RunHolds(characters, events);
    RunHolds(characters, events[..i]);
    if i == |events| {
      assert events[..i] == events;
    } else {
      var before := events[..|events| - 1];
      assert before[..i] == events[..i];
      MembersStay(characters, before, i, s, target, c);
      RunHolds(characters, before);
      StepKeepsMember(Run(characters, before), events[|events| - 1], s, target);
    }
    var t := Run(characters, events);
    assert c in t.channels ==> MirrorHolds(t, c);
  }

  /** Adding a member and removing them again restores every roster. */
  lemma AddThenRemoveRestores(characters: map<Id, Id>, events: seq<Event>, world: Id, s: Id, target: Id)
    ensures var t := Run(characters, events);
            s in t.servers && target !in t.servers[s].members ==>
              var owner := t.servers[s].owner;
              var (t1, added) := DoMemberChange(t, world, owner, s, target, true);
              added.Ok? ==> DoMemberChange(t1, world, owner, s, target, false).0 == t
  {
    RunHolds(characters, events);
    var t := Run(characters, events);
    if s in t.servers && target !in t.servers[s].members {
      var owner := t.servers[s].owner;
      assert ServerHolds(t, s);
      var (t1, added) := DoMemberChange(t, world, owner, s, target, true);
      if added.Ok? {
        var t2 := DoMemberChange(t1, world, owner, s, target, false).0;
        assert t1.servers[s].members - {target} == t.servers[s].members;
        assert t2.servers == t.servers;
        forall c | c in t.channels ensures t2.channels[c] == t.channels[c] {
          assert MirrorHolds(t, c);
          assert t.channels[c].roster + {target} - {target} == t.channels[c].roster - {target};
          assert target !in t.channels[c].roster ==> t.channels[c].roster - {target} == t.channels[c].roster;
        }
        assert t2.channels == t.channels;
      }
    }
  }

  // ── direct threads are found again ───────────────────────────────────────

  ghost predicate Kept(c: Id, t: Tables, t': Tables) {
    c in t.channels ==>
      c in t'.channels && t'.channels[c].world == t.channels[c].world && t'.channels[c].kind == t.channels[c].kind
      && t'.channels[c].pair == t.channels[c].pair && t'.channels[c].server == t.channels[c].server
  }

  lemma StepKeepsChannel(t: Tables, e: Event, c: Id)
    ensures Kept(c, t, Step(t, e))
  {
  }

  lemma {:induction false} RunKeepsChannel(characters: map<Id, Id>, events: seq<Event>, i: nat, c: Id)
    requires i <= |events|
    ensures Kept(c, Run(characters, events[..i]), Run(characters, events))
  {
    if i == |events| {
      assert events[..i] == events;
    } else {
      var before := events[..|events| - 1];
      assert before[..i] == events[..i];
      RunKeepsChannel(characters, before, i, c);
      StepKeepsChannel(Run(characters, before), events[|events| - 1], c);
    }
  }

  /** Whichever of the two opens it, and however much later, the thread is the same one. */
  lemma OpenDirectFindsTheThread(characters: map<Id, Id>, events: seq<Event>, i: nat, a: Id, b: Id, later: Id)
    requires i < |events| && events[i].OpenDirect? && events[i].caller == a && events[i].callee == Some(b)
    ensures var world := events[i].world;
            var first := DoOpenDirect(Run(characters, events[..i]), world, a, Some(b), events[i].id).1;
            first.Ok? ==>
              DoOpenDirect(Run(characters, events), world, b, Some(a), later) == (Run(characters, events), first)
              && DoOpenDirect(Run(characters, events), world, a, Some(b), later) == (Run(characters, events), first)
  {
    var world := events[i].world;
    var t, t' := Run(characters, events[..i]), Run(characters, events);
    var (t1, first) := DoOpenDirect(t, world, a, Some(b), events[i].id);
    if first.Ok? {
      assert events[..i + 1][..i] == events[..i] && Run(characters, events[..i + 1]) == t1;
      assert IsThread(t1.channels[first.value], world, Ordered(a, b));
      RunKeepsChannel(characters, events, i + 1, first.value);
      assert IsThread(t'.channels[first.value], world, Ordered(a, b));
      RunHolds(characters, events);
      forall c | c in t'.channels && IsThread(t'.channels[c], world, Ordered(a, b)) ensures c == first.value {
        assert SameThread(t'.channels[c], t'.channels[first.value]);
      }
      assert Ordered(a, b) == Ordered(b, a);
    }
  }
}
