/** Servers and channels as the store runs them, each method one transaction. */
module ServerStore {
  import opened Common
  import opened Servers
  import Query

  function OwnedBy(s: Id): (Id, Channel) -> bool { (c: Id, channel: Channel) => channel.server == Some(s) }

  class Store {
    const characters: map<Id, Id>
    var servers: map<Id, Server>
    var channels: map<Id, Channel>

    function State(): Tables
      reads this
    {
      Tables(characters, servers, channels)
    }

    ghost predicate Valid()
      reads this
    {
      Holds(State())
    }

    constructor (characters: map<Id, Id>)
      ensures Valid() && State() == Run(characters, [])
    {
      this.characters, servers, channels := characters, map[], map[];
    }

    method CreateServer(world: Id, who: Id, name: Text, bannerLive: Option<bool>, id: Id) returns (r: Result<Id>)
      requires Valid()
      modifies this
      ensures Valid()
      ensures (State(), r) == DoCreate(old(State()), world, who, name, bannerLive, id)
    {
      StepHolds(State(), Create(world, who, name, bannerLive, id));
      if BadName(name) { return Err(Invalid); }
      if bannerLive == Some(false) { return Err(Invalid); }
      if id in servers { return Err(DuplicateKey); }
      servers := servers[id := Server(world, who, {who})];
      return Ok(id);
    }

    /** The mirroring statement: every channel of the server, one row each. */
    method Mirror(s: Id, target: Id, add: bool) returns (touched: set<Id>)
      modifies this`channels
      ensures channels == Mirrored(old(channels), s, target, add)
      ensures touched == ChannelsOf(old(channels), s)
    {
      ghost var before := channels;
      touched := set c | c in channels && channels[c].server == Some(s);
      var todo := touched;
      while todo != {}
        invariant todo <= touched && channels.Keys == before.Keys
        invariant forall c :: c in channels ==>
                    channels[c] == if c in touched && c !in todo then Mirrored(before, s, target, add)[c] else before[c]
        decreases |todo|
      {
        EmptyIfNoMember(todo);
        var c :| c in todo;
        var roster := if add then channels[c].roster + {target} else channels[c].roster - {target};
        channels := channels[c := channels[c].(roster := roster)];
        todo := todo - {c};
      }
      forall c | c in channels ensures channels[c] == Mirrored(before, s, target, add)[c] {}
    }

    /** On success the channels whose topic the target is to be dropped from. */
    method ChangeMember(world: Id, who: Id, s: Id, target: Id, add: bool) returns (r: Result<set<Id>>)
      requires Valid()
      modifies this
      ensures Valid()
      ensures (State(), r) == DoMemberChange(old(State()), world, who, s, target, add)
    {
      StepHolds(State(), MemberChange(world, who, s, target, add));
      if !VisibleServer(State(), world, s) { return Err(NotFound); }
      var server := servers[s];
      if add {
        if who != server.owner { return Err(Forbidden); }
        if !Lives(State(), world, target) { return Err(Invalid); }
        if |server.members| >= SERVER_MEMBERS_MAX { return Err(Conflict); }
        if target in server.members { return Ok({}); }
        servers := servers[s := server.(members := server.members + {target})];
        var _ := Mirror(s, target, true);
        return Ok({});
      }
      if target == server.owner { return Err(Conflict); }
      if who != server.owner && who != target { return Err(Forbidden); }
      if target !in server.members { return Ok({}); }
      servers := servers[s := server.(members := server.members - {target})];
      var touched := Mirror(s, target, false);
      return Ok(touched);
    }

    method CreateChannel(world: Id, who: Id, s: Id, name: Text, kind: Kind, category: Option<Text>, id: Id) returns (r: Result<Id>)
      requires Valid()
      modifies this
      ensures Valid()
      ensures (State(), r) == DoChannelCreate(old(State()), world, who, s, name, kind, category, id)
    {
      StepHolds(State(), ChannelCreate(world, who, s, name, kind, category, id));
      if BadName(name) { return Err(Invalid); }
      if kind.Dm? { return Err(Invalid); }
      if category.Some? && (category.value == [] || |category.value| > CATEGORY_MAX) { return Err(Invalid); }
      if !VisibleServer(State(), world, s) { return Err(NotFound); }
      if servers[s].owner != who { return Err(Forbidden); }
      var count := Query.Count(channels, OwnedBy(s));
      assert Query.Matching(channels, OwnedBy(s)) == ChannelsOf(channels, s);
      if count >= SERVER_CHANNELS_MAX { return Err(Conflict); }
      if id in channels { return Err(DuplicateKey); }
      channels := channels[id := Channel(world, kind, Some(s), None, servers[s].members)];
      return Ok(id);
    }

    method ChangeGroup(world: Id, c: Id, actor: Id, target: Id, add: bool) returns (r: Result<bool>)
      requires Valid()
      modifies this
      ensures Valid()
      ensures (State(), r) == DoGroupChange(old(State()), world, c, actor, target, add)
    {
      StepHolds(State(), GroupChange(world, c, actor, target, add));
      if !VisibleChannel(State(), world, c) { return Err(NotFound); }
      var channel := channels[c];
      if channel.server.Some? { return Err(Conflict); }
      if !channel.kind.Group? { return Err(Conflict); }
      if actor !in channel.roster { return Err(Forbidden); }
      var changed: bool;
      if add {
        if !Lives(State(), world, target) { return Err(Invalid); }
        changed := target !in channel.roster;
        channels := channels[c := channel.(roster := channel.roster + {target})];
      } else {
        changed := target in channel.roster;
        channels := channels[c := channel.(roster := channel.roster - {target})];
      }
      return Ok(changed);
    }

    method OpenThread(world: Id, caller: Id, callee: Option<Id>, id: Id) returns (r: Result<Id>)
      requires Valid()
      modifies this
      ensures Valid()
      ensures (State(), r) == DoOpenDirect(old(State()), world, caller, callee, id)
    {
      StepHolds(State(), OpenDirect(world, caller, callee, id));
      if callee.None? { return Err(NotFound); }
      if callee.value == caller { return Err(Invalid); }
      var pair := Ordered(caller, callee.value);
      var found := Query.Find(channels, (channel: Channel) => IsThread(channel, world, pair));
      if found.Some? {
        var c: Id := found.value;
        assert IsThread(channels[c], world, pair);
        assert forall d :: d in channels && IsThread(channels[d], world, pair) ==> SameThread(channels[d], channels[c]);
        return Ok(c);
      }
      if id in channels { return Err(DuplicateKey); }
      channels := channels[id := Channel(world, Dm, None, Some(pair), {pair.0, pair.1})];
      return Ok(id);
    }

    /** The creator and the given members, which must be distinct characters of the world. */
    method OpenGroup(world: Id, creator: Id, members: seq<Id>, id: Id) returns (r: Result<Id>)
      requires Valid()
      modifies this
      ensures Valid()
      ensures (State(), r) == DoCreateGroup(old(State()), world, creator, members, id)
    {
      StepHolds(State(), CreateGroup(world, creator, members, id));
      var found := set m | m in members && Lives(State(), world, m);
      if members != [] && |found| != |members| { return Err(Invalid); }
      if id in channels { return Err(DuplicateKey); }
      var all := {creator};
      for i := 0 to |members|
        invariant all == {creator} + Distinct(members[..i])
        invariant creator !in members[..i]
        invariant State() == old(State())
      {
        assert members[..i + 1] == members[..i] + [members[i]];
        assert members[i] in members;
        if members[i] == creator { return Err(DuplicateKey); }
        all := all + {members[i]};
      }
      assert members[..|members|] == members;
      channels := channels[id := Channel(world, Group, None, None, all)];
      return Ok(id);
    }
  }
}
