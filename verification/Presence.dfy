/** The presence table under concurrency: `register` counts up under the row's lock,
    `unregister` counts down under the lock and removes a zero row in a second,
    separate step. Anything may run in between. */
module Presence {
  import opened Common

  /** A character in its world. */
  type Who = (int, int)

  datatype Report = CameOnline(who: Who) | WentOffline(who: Who)

  /** `live` are the connections counted and not yet counted down; `removals` says how
      many `unregister` calls stand between their two steps; `reports` are the flags
      handed to callers, in the order of the locked updates. */
  datatype State = State(
    rows: map<Who, nat>,
    live: map<int, Who>,
    removals: map<Who, nat>,
    reports: seq<Report>)

  const EMPTY: State := State(map[], map[], map[], [])

  datatype Event =
    | Register(conn: int, who: Who)
    | CountDown(conn: int)
    | RemoveIfZero(who: Who)

  function At(m: map<Who, nat>, who: Who): nat { if who in m then m[who] else 0 }

  /** Events whose caller is not at that point change nothing. */
  function Step(s: State, e: Event): State {
    match e
    case Register(conn, who) =>
      if conn in s.live then s
      else
        var count := At(s.rows, who) + 1;
        s.(rows := s.rows[who := count], live := s.live[conn := who],
           reports := if count == 1 then s.reports + [CameOnline(who)] else s.reports)
    case CountDown(conn) =>
      if conn !in s.live then s
      else
        var who, live := s.live[conn], s.live - {conn};
        if who !in s.rows then s.(live := live)
        else
          var count := SaturatingSub(s.rows[who], 1);
          if count == 0 then
            State(s.rows[who := 0], live, s.removals[who := At(s.removals, who) + 1], s.reports + [WentOffline(who)])
          else s.(rows := s.rows[who := count], live := live)
    case RemoveIfZero(who) =>
      if At(s.removals, who) == 0 then s
      else
        s.(rows := if who in s.rows && s.rows[who] == 0 then s.rows - {who} else s.rows,
           removals := s.removals[who := s.removals[who] - 1])
  }

  function Run(events: seq<Event>): State {
    if events == [] then EMPTY else Step(Run(events[..|events| - 1]), events[|events| - 1])
  }

  // ── what holds at every point ────────────────────────────────────────────

  ghost function ConnsOf(live: map<int, Who>, who: Who): set<int> {
    set c | c in live && live[c] == who
  }

  /** The last word on a character. */
  ghost function SaidOnline(reports: seq<Report>, who: Who): bool {
    reports != [] && (if reports[|reports| - 1].who == who then reports[|reports| - 1].CameOnline?
                      else SaidOnline(reports[..|reports| - 1], who))
  }

  /** A character comes online only when it was offline, and goes offline only when it was online. */
  ghost predicate Alternate(reports: seq<Report>, who: Who) {
    reports == [] ||
      var before, last := reports[..|reports| - 1], reports[|reports| - 1];
      Alternate(before, who) && (last.who == who ==> last.CameOnline? == !SaidOnline(before, who))
  }

  ghost predicate HoldsFor(s: State, who: Who) {
    && At(s.rows, who) == |ConnsOf(s.live, who)|
    && Alternate(s.reports, who)
    && (SaidOnline(s.reports, who) <==> ConnsOf(s.live, who) != {})
    && (who in s.rows && s.rows[who] == 0 ==> At(s.removals, who) > 0)
  }

  lemma ReportAppended(reports: seq<Report>, r: Report, who: Who)
    ensures SaidOnline(reports + [r], who) == if r.who == who then r.CameOnline? else SaidOnline(reports, who)
    ensures Alternate(reports + [r], who) <==>
              Alternate(reports, who) && (r.who == who ==> r.CameOnline? == !SaidOnline(reports, who))
  {
    assert (reports + [r])[..|reports|] == reports;
  }

  lemma ConnsGrow(live: map<int, Who>, conn: int, w: Who, who: Who)
    requires conn !in live
    ensures w == who ==> |ConnsOf(live[conn := w], who)| == |ConnsOf(live, who)| + 1 && ConnsOf(live[conn := w], who) != {}
    ensures w != who ==> ConnsOf(live[conn := w], who) == ConnsOf(live, who)
  {
    if w == who {
      assert ConnsOf(live[conn := w], who) == ConnsOf(live, who) + {conn};
      assert conn in ConnsOf(live[conn := w], who) && conn !in ConnsOf(live, who);
    } else {
      assert ConnsOf(live[conn := w], who) == ConnsOf(live, who);
    }
  }

  lemma RegisterHolds(s: State, conn: int, w: Who, who: Who)
    requires HoldsFor(s, who) && conn !in s.live
    ensures HoldsFor(Step(s, Register(conn, w)), who)
  {
    ConnsGrow(s.live, conn, w, who);
    ReportAppended(s.reports, CameOnline(w), who);
    assert At(s.rows, w) == 0 || s.rows[w] > 0;
  }

  lemma ConnsShrink(live: map<int, Who>, conn: int, who: Who)
    requires conn in live
    ensures live[conn] == who ==> |ConnsOf(live - {conn}, who)| == |ConnsOf(live, who)| - 1
    ensures live[conn] == who ==> (ConnsOf(live - {conn}, who) != {} <==> |ConnsOf(live - {conn}, who)| > 0)
    ensures live[conn] == who ==> ConnsOf(live, who) != {}
    ensures live[conn] != who ==> ConnsOf(live - {conn}, who) == ConnsOf(live, who)
  {
    if live[conn] == who {
      assert conn in ConnsOf(live, who);
      assert ConnsOf(live - {conn}, who) == ConnsOf(live, who) - {conn};
      EmptyIfNoMember(ConnsOf(live - {conn}, who));
    } else {
      assert ConnsOf(live - {conn}, who) == ConnsOf(live, who);
    }
  }

  lemma CountDownHolds(s: State, conn: int, who: Who)
    requires HoldsFor(s, who) && conn in s.live
    ensures HoldsFor(Step(s, CountDown(conn)), who)
  {
    ConnsShrink(s.live, conn, who);
    ReportAppended(s.reports, WentOffline(s.live[conn]), who);
  }

  lemma StepHolds(s: State, e: Event, who: Who)
    requires HoldsFor(s, who)
    ensures HoldsFor(Step(s, e), who)
  {
    match e
    case Register(conn, w) => if conn !in s.live { RegisterHolds(s, conn, w, who); }
    case CountDown(conn) => if conn in s.live { CountDownHolds(s, conn, who); }
    case RemoveIfZero(w) => assert Step(s, e).live == s.live && Step(s, e).reports == s.reports;
  }

  lemma {:induction false} RunHolds(events: seq<Event>, who: Who)
    ensures HoldsFor(Run(events), who)
  {
    if events == [] {
      assert ConnsOf(EMPTY.live, who) == {};
    } else {
      RunHolds(events[..|events| - 1], who);
      StepHolds(Run(events[..|events| - 1]), events[|events| - 1], who);
    }
  }

  // ── main results ─────────────────────────────────────────────────────────

  /** The count is the number of connections registered and not yet counted down,
      however the two steps of an `unregister` interleave with everything else; and the
      reports of a character alternate, ending on what is the case. */
  lemma CountIsExact(events: seq<Event>, who: Who)
    ensures var s := Run(events);
            && At(s.rows, who) == |ConnsOf(s.live, who)|
            && Alternate(s.reports, who)
            && (SaidOnline(s.reports, who) <==> ConnsOf(s.live, who) != {})
  {
    RunHolds(events, who);
  }

  /** A late removal never takes the row of a character that came back meanwhile. */
  lemma RemovalSparesTheReturned(events: seq<Event>, who: Who)
    ensures var s := Run(events);
            ConnsOf(s.live, who) != {} ==>
              Step(s, RemoveIfZero(who)).rows == s.rows && who in s.rows && s.rows[who] > 0
  {
    RunHolds(events, who);
  }

  /** A live connection's row is there and positive, so the saturating subtraction
      never saturates and the `None` arm is never taken. */
  lemma CountDownNeverSaturates(events: seq<Event>, conn: int)
    ensures var s := Run(events);
            conn in s.live ==> s.live[conn] in s.rows && s.rows[s.live[conn]] >= 1
  {
    var s := Run(events);
    if conn in s.live {
      RunHolds(events, s.live[conn]);
      assert conn in ConnsOf(s.live, s.live[conn]);
    }
  }

  /** Once no removal is outstanding, the table has rows for exactly the characters
      with a connection. */
  lemma SettledTableHasNoZeroRows(events: seq<Event>, who: Who)
    ensures var s := Run(events);
            At(s.removals, who) == 0 ==> (who in s.rows <==> ConnsOf(s.live, who) != {})
  {
    RunHolds(events, who);
  }

  /** A connection counts from its registration until it is counted down. */
  lemma LiveAfter(s: State, e: Event, conn: int)
    ensures conn in Step(s, e).live <==> (conn in s.live && e != CountDown(conn)) || (e.Register? && e.conn == conn)
    ensures conn in Step(s, e).live ==> Step(s, e).live[conn] == if conn in s.live then s.live[conn] else e.who
  {
  }
}
