/** Who may change which roster, and when a server or a channel appears: the guards written
    out over the tables before the event, for every reachable state. */
module ServerLaws {
  import opened Common
  import opened Servers

  // ── members of a server ──────────────────────────────────────────────────

  /** The event asks for this change of this server's roster, in the server's own world. */
  predicate Names(t: Tables, e: Event, s: Id, target: Id, add: bool) {
    e.MemberChange? && e.add == add && e.server == s && e.target == target && s in t.servers && t.servers[s].world == e.world
  }

  /** A member leaves a server in a step if and only if the step is a removal naming them, by
      the owner or by themselves, and they are not the owner. */
  lemma MemberLeavesIff(characters: map<Id, Id>, events: seq<Event>, e: Event, s: Id, target: Id)
    requires var t := Run(characters, events); s in t.servers && target in t.servers[s].members
    ensures var t := Run(characters, events);
            && s in Step(t, e).servers
            && (target !in Step(t, e).servers[s].members <==>
                  Names(t, e, s, target, false) && e.who in {t.servers[s].owner, target} && target != t.servers[s].owner)
  {
  }

  /** A character enters a server in a step if and only if the owner adds them, they live in
      that world, and the server is not full. */
  lemma MemberEntersIff(characters: map<Id, Id>, events: seq<Event>, e: Event, s: Id, target: Id)
    requires var t := Run(characters, events); s in t.servers && target !in t.servers[s].members
    ensures var t := Run(characters, events);
            && s in Step(t, e).servers
            && (target in Step(t, e).servers[s].members <==>
                  Names(t, e, s, target, true) && e.who == t.servers[s].owner
                  && target in characters && characters[target] == t.servers[s].world
                  && |t.servers[s].members| < 200)
  {
    RunHolds(characters, events);
  }

  /** What a change of the roster answers: not found, then forbidden, then invalid or
      conflict, and ok for the rest, whether or not anything had to change. */
  lemma MemberChangeAnswers(t: Tables, world: Id, who: Id, s: Id, target: Id, add: bool)
    ensures var r := DoMemberChange(t, world, who, s, target, add).1;
            var seen := s in t.servers && t.servers[s].world == world;
            && (r == Err(NotFound) <==> !seen)
            && (r == Err(Forbidden) <==>
                  seen && who != t.servers[s].owner && (add || (who != target && target != t.servers[s].owner)))
            && (r == Err(Invalid) <==> seen && add && who == t.servers[s].owner && !Lives(t, world, target))
            && (r == Err(Conflict) <==>
                  seen && if add then who == t.servers[s].owner && Lives(t, world, target) && |t.servers[s].members| >= 200
                          else target == t.servers[s].owner)
            && (r.Ok? <==>
                  seen && if add then who == t.servers[s].owner && Lives(t, world, target) && |t.servers[s].members| < 200
                          else target != t.servers[s].owner && who in {t.servers[s].owner, target})
  {
  }

  // ── new servers ──────────────────────────────────────────────────────────

  predicate GoodName(name: Text) { 1 <= |name| <= 128 }

  /** A server appears if and only if it is created under a good name and with no dead
      banner, and is then its creator's alone; none disappears or changes hands. */
  lemma ServerAppearsIff(t: Tables, e: Event, s: Id)
    ensures s in Step(t, e).servers <==>
              s in t.servers || (e.Create? && e.id == s && GoodName(e.name) && e.bannerLive != Some(false))
    ensures s !in t.servers && s in Step(t, e).servers ==> Step(t, e).servers[s] == Server(e.world, e.who, {e.who})
    ensures s in t.servers ==>
              Step(t, e).servers[s].owner == t.servers[s].owner && Step(t, e).servers[s].world == t.servers[s].world
  {
  }

  // ── new channels ─────────────────────────────────────────────────────────

  /** The owner of a server opens one more channel of it, not a direct one. */
  predicate OpensServerChannel(t: Tables, e: Event) {
    && e.ChannelCreate? && e.id !in t.channels && GoodName(e.name) && !e.kind.Dm?
    && (e.category.Some? ==> 1 <= |e.category.value| <= 64)
    && e.server in t.servers && t.servers[e.server].world == e.world && t.servers[e.server].owner == e.who
    && |set c | c in t.channels && t.channels[c].server == Some(e.server)| < 50
  }

  predicate AllLive(t: Tables, world: Id, members: seq<Id>) { forall i :: 0 <= i < |members| ==> Lives(t, world, members[i]) }
  predicate NoRepeats(members: seq<Id>) { forall i, j :: 0 <= i < j < |members| ==> members[i] != members[j] }

  /** Somebody opens a group with others of the world, each named once. */
  predicate OpensGroup(t: Tables, e: Event) {
    && e.CreateGroup? && e.id !in t.channels && e.creator !in e.members
    && AllLive(t, e.world, e.members) && NoRepeats(e.members)
  }

  /** The direct thread of these two in this world. */
  predicate ThreadOf(channel: Channel, world: Id, a: Id, b: Id) {
    channel.kind.Dm? && channel.world == world && channel.roster == {a, b}
  }
  /** Somebody writes to somebody else for the first time. */
  ghost predicate OpensThread(t: Tables, e: Event) {
    && e.OpenDirect? && e.id !in t.channels && e.callee.Some? && e.callee.value != e.caller
    && forall c :: c in t.channels ==> !ThreadOf(t.channels[c], e.world, e.caller, e.callee.value)
  }

  function NewChannel(t: Tables, e: Event): Channel
    requires e.ChannelCreate? ==> e.server in t.servers
    requires e.ChannelCreate? || e.CreateGroup? || (e.OpenDirect? && e.callee.Some?)
  {
    if e.ChannelCreate? then Channel(e.world, e.kind, Some(e.server), None, t.servers[e.server].members)
    else if e.CreateGroup? then Channel(e.world, Group, None, None, {e.creator} + set m | m in e.members)
    else
      var (a, b) := (e.caller, e.callee.value);
      Channel(e.world, Dm, None, Some(if a < b then (a, b) else (b, a)), {a, b})
  }

  function Found(t: Tables, world: Id, members: seq<Id>): set<Id> { set m | m in members && Lives(t, world, m) }

  lemma FoundSnoc(t: Tables, world: Id, members: seq<Id>, last: Id)
    ensures Found(t, world, members + [last]) == Found(t, world, members) + (if Lives(t, world, last) then {last} else {})
  {
  }
  lemma AllLiveSnoc(t: Tables, world: Id, members: seq<Id>, last: Id)
    ensures AllLive(t, world, members + [last]) <==> AllLive(t, world, members) && Lives(t, world, last)
  {
    if AllLive(t, world, members + [last]) {
      assert (members + [last])[|members|] == last;
      forall i | 0 <= i < |members| ensures Lives(t, world, members[i]) {
        assert members[i] == (members + [last])[i];
      }
    }
  }
  lemma NoRepeatsSnoc(members: seq<Id>, last: Id)
    ensures NoRepeats(members + [last]) <==> NoRepeats(members) && last !in members
  {
    var more := members + [last];
    if NoRepeats(more) {
      forall i, j | 0 <= i < j < |members| ensures members[i] != members[j] {
        assert more[i] == members[i] && more[j] == members[j];
      }
      forall i | 0 <= i < |members| ensures members[i] != last {
        assert more[i] == members[i] && more[|members|] == last;
      }
    }
  }

  /** Counting the members found finds out both that somebody is missing and that somebody
      was named twice. */
  lemma {:induction false} CountFindsRepeats(t: Tables, world: Id, members: seq<Id>)
    ensures var found := |Found(t, world, members)|;
            found <= |members| && (found == |members| <==> AllLive(t, world, members) && NoRepeats(members))
  {
    if members != [] {
      var before, last := members[..|members| - 1], members[|members| - 1];
      assert members == before + [last];
      CountFindsRepeats(t, world, before);
      FoundSnoc(t, world, before, last);
      AllLiveSnoc(t, world, before, last);
      NoRepeatsSnoc(before, last);
      var found := Found(t, world, before);
      assert last in before && Lives(t, world, last) ==> found + {last} == found;
      assert last !in before ==> last !in found;
    }
  }

  lemma ThreadIsByRoster(t: Tables, c: Id, world: Id, a: Id, b: Id)
    requires Holds(t) && c in t.channels && a != b
    ensures IsThread(t.channels[c], world, Ordered(a, b)) <==> ThreadOf(t.channels[c], world, a, b)
  {
    assert PairHolds(t, c);
    if ThreadOf(t.channels[c], world, a, b) {
      var pair := t.channels[c].pair.value;
      assert pair.0 in {a, b} && pair.1 in {a, b};
    }
  }

  lemma GroupAppears(t: Tables, e: Event, c: Id)
    requires e.CreateGroup?
    ensures c in Step(t, e).channels <==> c in t.channels || (OpensGroup(t, e) && e.id == c)
    ensures c !in t.channels && c in Step(t, e).channels ==> Step(t, e).channels[c] == NewChannel(t, e)
  {
    CountFindsRepeats(t, e.world, e.members);
    assert Found(t, e.world, e.members) == set m | m in e.members && Lives(t, e.world, m);
  }

  lemma ThreadAppears(t: Tables, e: Event, c: Id)
    requires Holds(t) && e.OpenDirect?
    ensures c in Step(t, e).channels <==> c in t.channels || (OpensThread(t, e) && e.id == c)
    ensures c !in t.channels && c in Step(t, e).channels ==> Step(t, e).channels[c] == NewChannel(t, e)
  {
    if e.callee.Some? && e.callee.value != e.caller {
      forall d | d in t.channels
        ensures IsThread(t.channels[d], e.world, Ordered(e.caller, e.callee.value))
                <==> ThreadOf(t.channels[d], e.world, e.caller, e.callee.value)
      {
        ThreadIsByRoster(t, d, e.world, e.caller, e.callee.value);
      }
    }
  }

  lemma ServerChannelAppears(t: Tables, e: Event, c: Id)
    requires e.ChannelCreate?
    ensures c in Step(t, e).channels <==> c in t.channels || (OpensServerChannel(t, e) && e.id == c)
    ensures c !in t.channels && c in Step(t, e).channels ==> Step(t, e).channels[c] == NewChannel(t, e)
  {
    assert ChannelsOf(t.channels, e.server) == set d | d in t.channels && t.channels[d].server == Some(e.server);
  }

  /** A channel appears if and only if the owner of its server opens it, or a group is
      opened, or a first direct thread; with the server's members, the named ones and their
      creator, or the two parties in it. */
  lemma ChannelAppearsIff(characters: map<Id, Id>, events: seq<Event>, e: Event, c: Id)
    ensures var t := Run(characters, events);
            && (c in Step(t, e).channels <==>
                  c in t.channels || ((OpensServerChannel(t, e) || OpensGroup(t, e) || OpensThread(t, e)) && e.id == c))
            && (c !in t.channels && c in Step(t, e).channels ==> Step(t, e).channels[c] == NewChannel(t, e))
  {
    RunHolds(characters, events);
    var t := Run(characters, events);
    match e
    case ChannelCreate(_, _, _, _, _, _, _) => ServerChannelAppears(t, e, c);
    case CreateGroup(_, _, _, _) => GroupAppears(t, e, c);
    case OpenDirect(_, _, _, _) => ThreadAppears(t, e, c);
    case Create(_, _, _, _, _) =>
    case MemberChange(_, _, _, _, _) =>
    case GroupChange(_, _, _, _, _) =>
  }

  /** What opening a server, a channel, a group or a direct thread answers: the id of what
      there is then, or the reason. */
  lemma CreateAnswers(t: Tables, world: Id, who: Id, name: Text, bannerLive: Option<bool>, id: Id)
    ensures var r := DoCreate(t, world, who, name, bannerLive, id).1;
            && (r == Ok(id) <==> GoodName(name) && bannerLive != Some(false) && id !in t.servers)
            && (r == Err(Invalid) <==> !GoodName(name) || bannerLive == Some(false))
  {
  }

  lemma ChannelCreateAnswers(t: Tables, world: Id, who: Id, s: Id, name: Text, kind: Kind, category: Option<Text>, id: Id)
    ensures var r := DoChannelCreate(t, world, who, s, name, kind, category, id).1;
            var good := GoodName(name) && !kind.Dm? && (category.Some? ==> 1 <= |category.value| <= 64);
            var seen := s in t.servers && t.servers[s].world == world;
            && (r == Ok(id) <==> OpensServerChannel(t, ChannelCreate(world, who, s, name, kind, category, id)))
            && (r == Err(Invalid) <==> !good)
            && (r == Err(NotFound) <==> good && !seen)
            && (r == Err(Forbidden) <==> good && seen && t.servers[s].owner != who)
  {
    assert ChannelsOf(t.channels, s) == set c | c in t.channels && t.channels[c].server == Some(s);
  }

  lemma CreateGroupAnswers(t: Tables, world: Id, creator: Id, members: seq<Id>, id: Id)
    ensures var r := DoCreateGroup(t, world, creator, members, id).1;
            && (r == Ok(id) <==> OpensGroup(t, CreateGroup(world, creator, members, id)))
            && (r == Err(Invalid) <==> !(AllLive(t, world, members) && NoRepeats(members)))
  {
    CountFindsRepeats(t, world, members);
    assert Found(t, world, members) == set m | m in members && Lives(t, world, m);
  }

  lemma OpenDirectAnswers(characters: map<Id, Id>, events: seq<Event>, world: Id, caller: Id, callee: Option<Id>, id: Id)
    ensures var t := Run(characters, events);
            var (t', r) := DoOpenDirect(t, world, caller, callee, id);
            && (r == Err(NotFound) <==> callee.None?)
            && (r == Err(Invalid) <==> callee == Some(caller))
            && (r.Ok? ==> callee.Some? && r.value in t'.channels && ThreadOf(t'.channels[r.value], world, caller, callee.value))
            && (callee.Some? && callee.value != caller && id !in t.channels ==> r.Ok?)
  {
    RunHolds(characters, events);
    var t := Run(characters, events);
    var r := DoOpenDirect(t, world, caller, callee, id).1;
    if r.Ok? && r.value in t.channels {
      ThreadIsByRoster(t, r.value, world, caller, callee.value);
    }
  }

  // ── rosters of channels ──────────────────────────────────────────────────

  /** A member of a plain group adds somebody of the world, or takes somebody out. */
  predicate ChangesGroup(t: Tables, e: Event, c: Id, x: Id) {
    && e.GroupChange? && e.channel == c && e.target == x && c in t.channels && t.channels[c].world == e.world
    && t.channels[c].server.None? && t.channels[c].kind.Group? && e.actor in t.channels[c].roster
    && (e.add ==> Lives(t, e.world, x))
  }

  /** Who is in a channel after a step: a server's channel follows the server, a plain group
      its own members' changes, a direct thread nobody. */
  lemma RosterAfter(characters: map<Id, Id>, events: seq<Event>, e: Event, c: Id, x: Id)
    requires c in Run(characters, events).channels
    ensures var t := Run(characters, events);
            var t' := Step(t, e);
            && c in t'.channels && t'.channels[c] == t.channels[c].(roster := t'.channels[c].roster)
            && (x in t'.channels[c].roster <==>
                  match t.channels[c].server
                  case Some(s) => s in t'.servers && x in t'.servers[s].members
                  case None => if ChangesGroup(t, e, c, x) then e.add else x in t.channels[c].roster)
  {
    RunHolds(characters, events);
    var t := Run(characters, events);
    StepHolds(t, e);
    assert MirrorHolds(t, c);
    StepKeepsChannel(t, e, c);
    assert MirrorHolds(Step(t, e), c);
  }

  /** What a change of a plain group answers. */
  lemma GroupChangeAnswers(t: Tables, world: Id, c: Id, actor: Id, target: Id, add: bool)
    ensures var r := DoGroupChange(t, world, c, actor, target, add).1;
            var seen := c in t.channels && t.channels[c].world == world;
            && (r == Err(NotFound) <==> !seen)
            && (r == Err(Conflict) <==> seen && (t.channels[c].server.Some? || !t.channels[c].kind.Group?))
            && (r == Err(Forbidden) <==>
                  seen && t.channels[c].server.None? && t.channels[c].kind.Group? && actor !in t.channels[c].roster)
            && (r.Ok? <==> ChangesGroup(t, GroupChange(world, c, actor, target, add), c, target))
            && (r.Ok? ==> r.value == ((target in t.channels[c].roster) != add))
  {
  }
}
