/** The caps on sockets that have not authenticated yet, one atomic operation at a time:
    a global counter bumped before it is judged, per-IP rows judged under their own
    lock, and a guard whose drop releases both in three steps. */
module Preauth {
  import opened Common

  type Ip = int
  type Tid = int

  /** Where one connection attempt stands between two atomic operations. */
  datatype Phase =
    | Counted(ip: Ip)       // bumped the global counter below the cap, per-IP row next
    | Refused(ip: Ip)       // over a cap, the global counter still to be given back
    | Guarded(ip: Ip)       // holds a guard
    | Releasing(ip: Ip)     // dropped: global given back, per-IP row next
    | Sweeping(ip: Ip)      // dropped: per-IP row counted down, zero row next

  datatype State = State(global: int, perIp: map<Ip, nat>, threads: map<Tid, Phase>)

  datatype Caps = Caps(global: nat, perIp: nat)

  const EMPTY: State := State(0, map[], map[])

  datatype Event =
    | FetchAdd(t: Tid, ip: Ip)
    | JudgeIp(t: Tid)
    | GiveBack(t: Tid)
    | DropGlobal(t: Tid)
    | DropIp(t: Tid)
    | RemoveIfZero(t: Tid)

  /** Events of a thread that is not at that point change nothing. */
  function Step(s: State, caps: Caps, e: Event): State {
    match e
    case FetchAdd(t, ip) =>
      if t in s.threads then s
      else s.(global := s.global + 1, threads := s.threads[t := if s.global >= caps.global then Refused(ip) else Counted(ip)])
    case JudgeIp(t) =>
      if t !in s.threads || !s.threads[t].Counted? then s
      else
        var ip := s.threads[t].ip;
        var n := if ip in s.perIp then s.perIp[ip] else 0;
        if n >= caps.perIp then s.(perIp := s.perIp[ip := n], threads := s.threads[t := Refused(ip)])
        else s.(perIp := s.perIp[ip := n + 1], threads := s.threads[t := Guarded(ip)])
    case GiveBack(t) =>
      if t !in s.threads || !s.threads[t].Refused? then s
      else s.(global := s.global - 1, threads := s.threads - {t})
    case DropGlobal(t) =>
      if t !in s.threads || !s.threads[t].Guarded? then s
      else s.(global := s.global - 1, threads := s.threads[t := Releasing(s.threads[t].ip)])
    case DropIp(t) =>
      if t !in s.threads || !s.threads[t].Releasing? then s
      else
        var ip := s.threads[t].ip;
        s.(perIp := if ip in s.perIp then s.perIp[ip := SaturatingSub(s.perIp[ip], 1)] else s.perIp,
           threads := s.threads[t := Sweeping(ip)])
    case RemoveIfZero(t) =>
      if t !in s.threads || !s.threads[t].Sweeping? then s
      else
        var ip := s.threads[t].ip;
        s.(perIp := if ip in s.perIp && s.perIp[ip] == 0 then s.perIp - {ip} else s.perIp, threads := s.threads - {t})
  }

  function Run(caps: Caps, events: seq<Event>): State {
    if events == [] then EMPTY else Step(Run(caps, events[..|events| - 1]), caps, events[|events| - 1])
  }

  // ── counting threads by phase ────────────────────────────────────────────

  ghost function Those(threads: map<Tid, Phase>, p: Phase -> bool): set<Tid> {
    set t | t in threads && p(threads[t])
  }
  ghost function Count(threads: map<Tid, Phase>, p: Phase -> bool): nat {
    |Those(threads, p)|
  }

  ghost function Holding(): Phase -> bool { (p: Phase) => p.Guarded? }
  ghost function HoldingFrom(ip: Ip): Phase -> bool { (p: Phase) => p.Guarded? && p.ip == ip }
  /** Guards, and attempts past the global cap. */
  ghost function Admitted(): Phase -> bool { (p: Phase) => p.Guarded? || p.Counted? }
  ghost function InFlight(): Phase -> bool { (p: Phase) => p.Counted? || p.Refused? }
  ghost function CountedGlobally(): Phase -> bool { (p: Phase) => p.Guarded? || p.Counted? || p.Refused? }
  ghost function CountedFrom(ip: Ip): Phase -> bool { (p: Phase) => (p.Guarded? || p.Releasing?) && p.ip == ip }
  ghost function SweepingFrom(ip: Ip): Phase -> bool { (p: Phase) => p.Sweeping? && p.ip == ip }

  lemma CountOnSet(threads: map<Tid, Phase>, p: Phase -> bool, t: Tid, phase: Phase)
    ensures Count(threads[t := phase], p) ==
              Count(threads, p) + (if p(phase) then 1 else 0) - (if t in threads && p(threads[t]) then 1 else 0)
  {
    CountOnRemove(threads, p, t);
    if p(phase) {
      assert Those(threads[t := phase], p) == Those(threads - {t}, p) + {t};
    } else {
      assert Those(threads[t := phase], p) == Those(threads - {t}, p);
    }
  }

  lemma CountOnRemove(threads: map<Tid, Phase>, p: Phase -> bool, t: Tid)
    ensures Count(threads - {t}, p) == Count(threads, p) - (if t in threads && p(threads[t]) then 1 else 0)
  {
    assert Those(threads - {t}, p) == Those(threads, p) - {t};
  }

  lemma CountOfNone(p: Phase -> bool)
    ensures Count(map[], p) == 0
  {
    assert Those(map[], p) == {};
  }

  lemma CountMonotone(threads: map<Tid, Phase>, p: Phase -> bool, q: Phase -> bool)
    requires forall phase :: p(phase) ==> q(phase)
    ensures Count(threads, p) <= Count(threads, q)
  {
    SubsetIsSmaller(Those(threads, p), Those(threads, q));
  }

  lemma CountSplits(threads: map<Tid, Phase>, p: Phase -> bool, q: Phase -> bool, r: Phase -> bool)
    requires forall phase :: r(phase) <==> p(phase) || q(phase)
    requires forall phase :: !(p(phase) && q(phase))
    ensures Count(threads, r) == Count(threads, p) + Count(threads, q)
  {
    assert Those(threads, r) == Those(threads, p) + Those(threads, q);
  }

  // ── invariant ────────────────────────────────────────────────────────────

  function Rows(s: State, ip: Ip): nat { if ip in s.perIp then s.perIp[ip] else 0 }

  ghost predicate GlobalHolds(s: State, caps: Caps) {
    s.global == Count(s.threads, CountedGlobally()) && Count(s.threads, Admitted()) <= caps.global
  }
  ghost predicate IpHolds(s: State, caps: Caps, ip: Ip) {
    && Rows(s, ip) == Count(s.threads, CountedFrom(ip)) && Rows(s, ip) <= caps.perIp
    && (ip in s.perIp && s.perIp[ip] == 0 ==> caps.perIp == 0 || Count(s.threads, SweepingFrom(ip)) > 0)
  }

  /** What one event does to the count of any phase class. */
  lemma CountAfter(s: State, caps: Caps, e: Event, p: Phase -> bool)
    ensures var s' := Step(s, caps, e);
            Count(s'.threads, p) ==
              Count(s.threads, p)
                + (if e.t in s'.threads && p(s'.threads[e.t]) then 1 else 0)
                - (if e.t in s.threads && p(s.threads[e.t]) then 1 else 0)
  {
    var s' := Step(s, caps, e);
    if e.t in s'.threads {
      CountOnSet(s.threads, p, e.t, s'.threads[e.t]);
      assert s'.threads == s.threads[e.t := s'.threads[e.t]];
    } else {
      CountOnRemove(s.threads, p, e.t);
      assert s'.threads == s.threads - {e.t};
    }
  }

  lemma StepKeepsGlobal(s: State, caps: Caps, e: Event)
    requires GlobalHolds(s, caps)
    ensures GlobalHolds(Step(s, caps, e), caps)
  {
    CountAfter(s, caps, e, CountedGlobally());
    CountAfter(s, caps, e, Admitted());
    CountMonotone(s.threads, Admitted(), CountedGlobally());
  }

  lemma StepKeepsIp(s: State, caps: Caps, e: Event, ip: Ip)
    requires IpHolds(s, caps, ip)
    ensures IpHolds(Step(s, caps, e), caps, ip)
  {
    CountAfter(s, caps, e, CountedFrom(ip));
    CountAfter(s, caps, e, SweepingFrom(ip));
  }

  lemma {:induction false} RunHolds(caps: Caps, events: seq<Event>, ip: Ip)
    ensures GlobalHolds(Run(caps, events), caps) && IpHolds(Run(caps, events), caps, ip)
  {
    if events == [] {
      CountOfNone(CountedGlobally());
      CountOfNone(Admitted());
      CountOfNone(CountedFrom(ip));
    } else {
      RunHolds(caps, events[..|events| - 1], ip);
      StepKeepsGlobal(Run(caps, events[..|events| - 1]), caps, events[|events| - 1]);
      StepKeepsIp(Run(caps, events[..|events| - 1]), caps, events[|events| - 1], ip);
    }
  }

  // ── main results ─────────────────────────────────────────────────────────

  /** However the atomic steps interleave, the guards never exceed either cap. */
  lemma GuardsStayWithinCaps(caps: Caps, events: seq<Event>, ip: Ip)
    ensures var threads := Run(caps, events).threads;
            Count(threads, Holding()) <= caps.global && Count(threads, HoldingFrom(ip)) <= caps.perIp
  {
    RunHolds(caps, events, ip);
    CountMonotone(Run(caps, events).threads, Holding(), Admitted());
    CountMonotone(Run(caps, events).threads, HoldingFrom(ip), CountedFrom(ip));
  }

  /** The global counter is the guards plus the attempts in flight, so it neither
      underflows nor outgrows the number of sockets. */
  lemma GlobalCountsExactly(caps: Caps, events: seq<Event>)
    ensures var s := Run(caps, events);
            s.global == Count(s.threads, Holding()) + Count(s.threads, InFlight()) && 0 <= s.global <= |s.threads|
  {
    RunHolds(caps, events, 0);
    var s := Run(caps, events);
    CountSplits(s.threads, Holding(), InFlight(), CountedGlobally());
    SubsetIsSmaller(Those(s.threads, CountedGlobally()), s.threads.Keys);
  }

  /** No release is lost or counted twice: a dropping guard finds its row there and
      positive, so the saturating subtraction never saturates. */
  lemma ReleaseFindsItsRow(caps: Caps, events: seq<Event>, t: Tid)
    ensures var s := Run(caps, events);
            t in s.threads && s.threads[t].Releasing? ==>
              s.threads[t].ip in s.perIp && s.perIp[s.threads[t].ip] >= 1
              && Rows(Step(s, caps, DropIp(t)), s.threads[t].ip) == s.perIp[s.threads[t].ip] - 1
  {
    var s := Run(caps, events);
    if t in s.threads && s.threads[t].Releasing? {
      RunHolds(caps, events, s.threads[t].ip);
      CountOnRemove(s.threads, CountedFrom(s.threads[t].ip), t);
    }
  }

  /** When every attempt and every guard is done, nothing is left counted; with a
      positive per-IP cap no row is left either. */
  lemma QuiescentIsClean(caps: Caps, events: seq<Event>, ip: Ip)
    ensures var s := Run(caps, events);
            s.threads == map[] ==> s.global == 0 && Rows(s, ip) == 0 && (caps.perIp > 0 ==> ip !in s.perIp)
  {
    RunHolds(caps, events, ip);
    var s := Run(caps, events);
    if s.threads == map[] {
      CountOfNone(CountedGlobally());
      CountOfNone(CountedFrom(ip));
      CountOfNone(SweepingFrom(ip));
    }
  }

  /** With a global cap of zero nobody gets as far as the per-IP rows. */
  lemma {:induction false} NothingPassesAZeroCap(caps: Caps, events: seq<Event>)
    requires caps.global == 0
    ensures var s := Run(caps, events); s.perIp == map[] && forall t :: t in s.threads ==> s.threads[t].Refused?
  {
    if events != [] {
      NothingPassesAZeroCap(caps, events[..|events| - 1]);
      RunHolds(caps, events[..|events| - 1], 0);
    }
  }

  /** Nothing is under way, and yet the address has a row. */
  ghost predicate LeavesARow(caps: Caps, events: seq<Event>, ip: Ip) {
    Run(caps, events).threads == map[] && ip in Run(caps, events).perIp
  }

  /** An attempt refused by a per-IP cap of zero leaves its zero row behind. */
  lemma RefusalLeavesARow(caps: Caps, ip: Ip)
    requires caps.perIp == 0 && caps.global > 0
    ensures LeavesARow(caps, [FetchAdd(1, ip), JudgeIp(1), GiveBack(1)], ip)
  {
    var events := [FetchAdd(1, ip), JudgeIp(1), GiveBack(1)];
    assert events[..2] == [events[0], events[1]] && events[..2][..1] == [events[0]] && events[..2][..1][..0] == [];
    var first := Run(caps, events[..2][..1]);
    assert first == Step(Run(caps, []), caps, events[0]);
    var second := Run(caps, events[..2]);
    assert second == Step(first, caps, events[1]);
    assert second.threads == map[1 := Refused(ip)];
  }

  /** Rows outlive the attempts and guards of their address in some run if and only if
      the per-IP cap is zero and the global cap is not. */
  lemma RowsOutliveGuardsIff(caps: Caps, ip: Ip)
    ensures (exists events :: LeavesARow(caps, events, ip)) <==> caps.perIp == 0 && caps.global > 0
  {
    if caps.perIp == 0 && caps.global > 0 {
      RefusalLeavesARow(caps, ip);
    }
    forall events | LeavesARow(caps, events, ip) ensures caps.perIp == 0 && caps.global > 0 {
      QuiescentIsClean(caps, events, ip);
      if caps.global == 0 {
        NothingPassesAZeroCap(caps, events);
      }
    }
  }
}

/** The same counters as one caller sees them when nobody else runs. */
module PreauthGuard {
  import opened Common
  import opened Preauth

  function AcquireAlone(s: State, caps: Caps, t: Tid, ip: Ip): State {
    Step(Step(Step(s, caps, FetchAdd(t, ip)), caps, JudgeIp(t)), caps, GiveBack(t))
  }
  function ReleaseAlone(s: State, caps: Caps, t: Tid): State {
    Step(Step(Step(s, caps, DropGlobal(t)), caps, DropIp(t)), caps, RemoveIfZero(t))
  }

  /** Undisturbed, an attempt gets a guard exactly below both caps, a refused one leaves
      the counters as they were, and dropping the guard restores them. */
  lemma AcquireThenDropRestores(s: State, caps: Caps, t: Tid, ip: Ip)
    requires t !in s.threads && (ip in s.perIp ==> s.perIp[ip] > 0)
    ensures var s' := AcquireAlone(s, caps, t, ip);
            && (t in s'.threads <==> s.global < caps.global && Rows(s, ip) < caps.perIp)
            && (t !in s'.threads ==> s'.global == s.global && Rows(s', ip) == Rows(s, ip) && s'.threads == s.threads)
            && (t in s'.threads ==> s'.threads[t] == Guarded(ip) && ReleaseAlone(s', caps, t) == s)
  {
    var s' := AcquireAlone(s, caps, t, ip);
    if s.global < caps.global && Rows(s, ip) < caps.perIp {
      var s'' := ReleaseAlone(s', caps, t);
      assert s''.perIp == s.perIp && s''.threads == s.threads;
    } else {
      assert s'.threads == s.threads;
    }
  }

  class PreauthCaps {
    const caps: Caps
    var global: int
    var perIp: map<Ip, nat>

    constructor (caps: Caps)
      ensures this.caps == caps && global == 0 && perIp == map[]
    {
      this.caps, global, perIp := caps, 0, map[];
    }

    /** `t` names the calling thread in the specification. */
    method TryAcquire(ip: Ip, ghost t: Tid) returns (ok: bool)
      modifies this
      ensures State(global, perIp, if ok then map[t := Guarded(ip)] else map[])
              == AcquireAlone(State(old(global), old(perIp), map[]), caps, t, ip)
    {
      var before := global;
      global := global + 1;
      if before >= caps.global {
        global := global - 1;
        return false;
      }
      var n := if ip in perIp then perIp[ip] else 0;
      perIp := perIp[ip := n];
      if n >= caps.perIp {
        global := global - 1;
        return false;
      }
      perIp := perIp[ip := n + 1];
      return true;
    }

    /** The guard's `Drop`. */
    method Release(ip: Ip, ghost t: Tid)
      modifies this
      ensures State(global, perIp, map[]) == ReleaseAlone(State(old(global), old(perIp), map[t := Guarded(ip)]), caps, t)
    {
      global := global - 1;
      if ip in perIp {
        perIp := perIp[ip := SaturatingSub(perIp[ip], 1)];
      }
      if ip in perIp && perIp[ip] == 0 {
        perIp := perIp - {ip};
      }
    }
  }
}
