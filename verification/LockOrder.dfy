/** Row locks of concurrent ledger transactions, one lock at a time. A transaction
    asks for its rows in a fixed order, waits for a row another one holds, and gives
    everything back when it ends. */
module LockOrder {
  import opened Common

  type Id = nat
  type Tx = nat

  /** `ReservedRow(e)` is the hold behind withdraw `e`, which the public commands do not
      see; `HoldRow` is any other hold. The janitor's advisory lock counts as a row. */
  datatype Row = JanitorLock | ExchangeRow(id: Id) | HoldRow(id: Id) | AccountRow(id: Id) | ReservedRow(id: Id)

  /** What a transaction will lock. A capture learns its account from the hold row,
      whose `account_id` never changes. A deposit and a confirm lock the system account in
      get-or-create, before their id-ordered statement. The sweep takes the pending
      exchanges behind lapsed holds, then those holds, each in whatever order the
      database finds them. */
  datatype Request =
    | Transfer(from: Id, to: Id)
    | Hold(account: Id)
    | Capture(hold: Id, account: Id, to: Id)
    | Release(hold: Id)
    | Deposit(system: Id, wallet: Id)
    | Withdraw(wallet: Id)
    | Confirm(exchange: Id, system: Id, wallet: Id)
    | ExpireHolds(exchanges: seq<Row>, holds: seq<Row>)

  /** `WHERE id IN (a, b) ORDER BY id FOR UPDATE`. */
  function IdOrdered(a: Id, b: Id): seq<Row> {
    if a == b then [AccountRow(a)] else if a < b then [AccountRow(a), AccountRow(b)] else [AccountRow(b), AccountRow(a)]
  }

  function Plan(r: Request): seq<Row> {
    match r
    case Transfer(from, to) => IdOrdered(from, to)
    case Hold(account) => [AccountRow(account)]
    case Capture(hold, account, to) => [HoldRow(hold)] + IdOrdered(account, to)
    case Release(hold) => [HoldRow(hold)]
    case Deposit(system, wallet) => if system == wallet then [AccountRow(system)] else [AccountRow(system), AccountRow(wallet)]
    case Withdraw(wallet) => [AccountRow(wallet)]
    case Confirm(exchange, system, wallet) =>
      [ExchangeRow(exchange), AccountRow(system), ReservedRow(exchange)] + (if system == wallet then [] else [AccountRow(wallet)])
    case ExpireHolds(exchanges, holds) => [JanitorLock] + exchanges + holds
  }

  /** What a running transaction owns and will still ask for, next row first. */
  datatype Running = Running(owned: set<Row>, todo: seq<Row>, sweep: bool)
  type State = map<Tx, Running>

  /** `Skip` passes over a row that does not exist or no longer qualifies, `Abort` is any
      error return before the last lock: not found, forbidden, conflict. */
  datatype Event =
    | Begin(tx: Tx, request: Request)
    | Acquire(tx: Tx)
    | Skip(tx: Tx)
    | Commit(tx: Tx)
    | Abort(tx: Tx)

  predicate Owns(s: State, tx: Tx, row: Row) { tx in s && row in s[tx].owned }
  predicate Free(s: State, row: Row) {
    forall tx :: tx in s ==> !Owns(s, tx, row)
  }
  predicate Waiting(s: State, tx: Tx) { tx in s && s[tx].todo != [] }
  function Wants(s: State, tx: Tx): Row
    requires Waiting(s, tx)
  {
    s[tx].todo[0]
  }

  /** Without giving up, this transaction can take a lock or commit. */
  predicate CanStep(s: State, tx: Tx) {
    tx in s && (Waiting(s, tx) ==> Free(s, Wants(s, tx)))
  }

  function Acquired(r: Running): Running
    requires r.todo != []
  {
    r.(owned := r.owned + {r.todo[0]}, todo := r.todo[1..])
  }

  function Drop(rows: seq<Row>, row: Row): seq<Row> {
    if rows == [] then [] else (if rows[0] == row then [] else [rows[0]]) + Drop(rows[1..], row)
  }

  /** Without an exchange its hold is not looked for either; the advisory lock is not a
      row that could be missing. */
  function Skipped(r: Running): Running
    requires r.todo != []
  {
    var row := r.todo[0];
    if row.JanitorLock? then r
    else r.(todo := if row.ExchangeRow? then Drop(r.todo[1..], ReservedRow(row.id)) else r.todo[1..])
  }

  /** Events that are not enabled change nothing. */
  function Step(s: State, e: Event): State {
    match e
    case Begin(tx, request) => if tx in s then s else s[tx := Running({}, Plan(request), request.ExpireHolds?)]
    case Acquire(tx) => if Waiting(s, tx) && Free(s, Wants(s, tx)) then s[tx := Acquired(s[tx])] else s
    case Skip(tx) => if Waiting(s, tx) then s[tx := Skipped(s[tx])] else s
    case Commit(tx) => if tx in s && !Waiting(s, tx) then s - {tx} else s
    case Abort(tx) => s - {tx}
  }

  function Run(events: seq<Event>): State {
    if events == [] then map[] else Step(Run(events[..|events| - 1]), events[|events| - 1])
  }

  // ── the order ────────────────────────────────────────────────────────────

  function Level(r: Row): nat {
    match r case JanitorLock => 0 case ExchangeRow(_) => 1 case HoldRow(_) => 2 case AccountRow(_) => 3 case ReservedRow(_) => 4
  }

  /** The lock, exchanges, holds, then accounts by id. Reserved rows stand outside: who
      wants one owns its exchange. */
  predicate Less(a: Row, b: Row) {
    Level(a) < Level(b) || (a.AccountRow? && b.AccountRow? && a.id < b.id)
  }

  /** `row` may be asked for by one that owns these: beyond all of them, a reserved row with
      its exchange; the sweep starts with its lock and then goes by level only. */
  ghost predicate Allowed(owned: set<Row>, row: Row, sweep: bool) {
    && row !in owned
    && (row.ReservedRow? ==> ExchangeRow(row.id) in owned)
    && (row.JanitorLock? <==> sweep && owned == {})
    && (sweep ==> !row.AccountRow?)
    && (!row.ReservedRow? ==>
          forall o :: o in owned && !o.ReservedRow? ==> if sweep then Level(o) <= Level(row) else Less(o, row))
  }
  ghost predicate InOrder(owned: set<Row>, todo: seq<Row>, sweep: bool)
    decreases todo
  {
    todo == [] || (Allowed(owned, todo[0], sweep) && InOrder(owned + {todo[0]}, todo[1..], sweep))
  }

  predicate Distinct(rows: seq<Row>) {
    rows == [] || (rows[0] !in rows[1..] && Distinct(rows[1..]))
  }

  /** What the requests promise. A deposit and a confirm keep the order only if the system
      account was created first; the sweep locks each row once, and a reserved hold only
      with its exchange, which shares its condition. */
  ghost predicate Ordered(r: Request) {
    match r
    case Deposit(system, wallet) => system <= wallet
    case Confirm(_, system, wallet) => system <= wallet
    case ExpireHolds(exchanges, holds) =>
      && Distinct(exchanges) && Distinct(holds)
      && (forall x :: x in exchanges ==> x.ExchangeRow?)
      && (forall h :: h in holds ==> h.HoldRow? || (h.ReservedRow? && ExchangeRow(h.id) in exchanges))
    case _ => true
  }

  lemma {:induction false} HoldsInOrder(owned: set<Row>, holds: seq<Row>)
    requires Distinct(holds) && JanitorLock in owned
    requires forall o :: o in owned ==> o.ReservedRow? || Level(o) <= 2
    requires forall h :: h in holds ==> h !in owned && (h.HoldRow? || (h.ReservedRow? && ExchangeRow(h.id) in owned))
    ensures InOrder(owned, holds, true)
    decreases holds
  {
    if holds != [] {
      assert holds[0] in holds;
      HoldsInOrder(owned + {holds[0]}, holds[1..]);
    }
  }

  lemma {:induction false} SweepInOrder(owned: set<Row>, exchanges: seq<Row>, holds: seq<Row>)
    requires Distinct(exchanges) && Distinct(holds) && JanitorLock in owned
    requires forall o :: o in owned ==> Level(o) <= 1
    requires forall x :: x in exchanges ==> x !in owned && x.ExchangeRow?
    requires forall h :: h in holds ==>
               h.HoldRow? || (h.ReservedRow? && (ExchangeRow(h.id) in exchanges || ExchangeRow(h.id) in owned))
    ensures InOrder(owned, exchanges + holds, true)
    decreases exchanges
  {
    if exchanges == [] {
      assert exchanges + holds == holds;
      HoldsInOrder(owned, holds);
    } else {
      assert exchanges[0] in exchanges && (exchanges + holds)[1..] == exchanges[1..] + holds;
      assert forall x :: x in exchanges <==> x == exchanges[0] || x in exchanges[1..];
      SweepInOrder(owned + {exchanges[0]}, exchanges[1..], holds);
    }
  }

  lemma AccountsInOrder(owned: set<Row>, a: Id, b: Id)
    requires forall o :: o in owned ==> o.HoldRow?
    ensures InOrder(owned, IdOrdered(a, b), false)
  {
    var rows := IdOrdered(a, b);
    assert rows[1..] == [] || rows[1..][1..] == [];
    assert InOrder(owned + {rows[0]} + {AccountRow(if a < b then b else a)}, [], false);
  }

  lemma CaptureInOrder(hold: Id, account: Id, to: Id)
    ensures InOrder({}, Plan(Capture(hold, account, to)), false)
  {
    AccountsInOrder({HoldRow(hold)}, account, to);
    assert Plan(Capture(hold, account, to))[1..] == IdOrdered(account, to) && {} + {HoldRow(hold)} == {HoldRow(hold)};
  }

  lemma ExpireInOrder(exchanges: seq<Row>, holds: seq<Row>)
    requires Ordered(ExpireHolds(exchanges, holds))
    ensures InOrder({}, Plan(ExpireHolds(exchanges, holds)), true)
  {
    SweepInOrder({JanitorLock}, exchanges, holds);
    assert Plan(ExpireHolds(exchanges, holds))[1..] == exchanges + holds && {} + {JanitorLock} == {JanitorLock};
  }

  lemma OneRowInOrder(row: Row)
    requires row.HoldRow? || row.AccountRow?
    ensures InOrder({}, [row], false)
  {
    assert [row][1..] == [];
  }

  lemma PlansAreInOrder(r: Request)
    requires Ordered(r)
    ensures InOrder({}, Plan(r), r.ExpireHolds?)
  {
    match r
    case Transfer(from, to) => AccountsInOrder({}, from, to);
    case Hold(account) => OneRowInOrder(AccountRow(account));
    case Capture(hold, account, to) => CaptureInOrder(hold, account, to);
    case Release(hold) => OneRowInOrder(HoldRow(hold));
    case Deposit(system, wallet) => AccountsInOrder({}, system, wallet);
    case Withdraw(wallet) => OneRowInOrder(AccountRow(wallet));
    case Confirm(exchange, system, wallet) => ConfirmInOrder(exchange, system, wallet);
    case ExpireHolds(exchanges, holds) => ExpireInOrder(exchanges, holds);
  }

  lemma ConfirmInOrder(exchange: Id, system: Id, wallet: Id)
    requires system <= wallet
    ensures InOrder({}, Plan(Confirm(exchange, system, wallet)), false)
  {
    var plan := Plan(Confirm(exchange, system, wallet));
    var x, a, h := ExchangeRow(exchange), AccountRow(system), ReservedRow(exchange);
    var last := if system == wallet then [] else [AccountRow(wallet)];
    assert plan[1..] == [a, h] + last && plan[1..][1..] == [h] + last && plan[1..][1..][1..] == last;
    assert last != [] ==> last[1..] == [];
    assert InOrder({} + {x} + {a} + {h}, last, false);
    assert InOrder({} + {x} + {a}, plan[1..][1..], false);
    assert InOrder({} + {x}, plan[1..], false);
  }

  // ── passing over a row ───────────────────────────────────────────────────

  /** Owning less, an exchange and its hold, keeps the rest in order once the hold is not
      asked for. */
  lemma {:induction false} LessOwnedInOrder(owned: set<Row>, all: set<Row>, row: Row, rest: seq<Row>, sweep: bool)
    requires InOrder(all, rest, sweep) && owned <= all && !row.JanitorLock? && (sweep ==> owned != {})
    requires forall o :: o in all && o !in owned ==> o == row || (row.ExchangeRow? && o == ReservedRow(row.id))
    ensures InOrder(owned, if row.ExchangeRow? then Drop(rest, ReservedRow(row.id)) else rest, sweep)
    decreases |rest|
  {
    if rest != [] {
      if row.ExchangeRow? && rest[0] == ReservedRow(row.id) {
        LessOwnedInOrder(owned, all + {rest[0]}, row, rest[1..], sweep);
        assert Drop(rest, ReservedRow(row.id)) == Drop(rest[1..], ReservedRow(row.id));
      } else {
        assert Allowed(owned, rest[0], sweep);
        LessOwnedInOrder(owned + {rest[0]}, all + {rest[0]}, row, rest[1..], sweep);
        var kept := Drop(rest, ReservedRow(row.id));
        assert row.ExchangeRow? ==> kept == [rest[0]] + Drop(rest[1..], ReservedRow(row.id)) && kept[1..] == Drop(rest[1..], ReservedRow(row.id));
      }
    }
  }

  // ── invariant ────────────────────────────────────────────────────────────

  ghost predicate RunningHolds(r: Running) {
    && InOrder(r.owned, r.todo, r.sweep)
    && (forall o :: o in r.owned && o.ReservedRow? ==> ExchangeRow(o.id) in r.owned)
    && (r.sweep && r.owned != {} ==> JanitorLock in r.owned)
  }
  ghost predicate Inv(s: State) {
    && (forall tx {:trigger s[tx]} :: tx in s ==> RunningHolds(s[tx]))
    && (forall tx, other, row {:trigger Owns(s, tx, row), Owns(s, other, row)} ::
          Owns(s, tx, row) && Owns(s, other, row) ==> tx == other)
  }

  lemma SkipHolds(r: Running)
    requires RunningHolds(r) && r.todo != []
    ensures RunningHolds(Skipped(r)) && Skipped(r).owned == r.owned
  {
    if !r.todo[0].JanitorLock? {
      LessOwnedInOrder(r.owned, r.owned + {r.todo[0]}, r.todo[0], r.todo[1..], r.sweep);
    }
  }

  lemma StepKeepsInv(s: State, e: Event)
    requires Inv(s) && (e.Begin? ==> Ordered(e.request))
    ensures Inv(Step(s, e))
  {
    var s' := Step(s, e);
    if e.Begin? {
      PlansAreInOrder(e.request);
    }
    if e.Skip? && Waiting(s, e.tx) {
      SkipHolds(s[e.tx]);
    }
    forall t, row | Owns(s', t, row) ensures Owns(s, t, row) || (e == Acquire(t) && Free(s, row)) {}
  }

  ghost predicate AllOrdered(events: seq<Event>) {
    forall i {:trigger events[i]} :: 0 <= i < |events| && events[i].Begin? ==> Ordered(events[i].request)
  }

  lemma {:induction false} RunKeepsInv(events: seq<Event>)
    requires AllOrdered(events)
    ensures Inv(Run(events))
  {
    if events != [] {
      RunKeepsInv(events[..|events| - 1]);
      StepKeepsInv(Run(events[..|events| - 1]), events[|events| - 1]);
    }
  }

  /** Locks are taken when free, one at a time, and kept to the end of the transaction. */
  lemma OwnershipAfter(s: State, e: Event, tx: Tx, row: Row)
    ensures Owns(Step(s, e), tx, row) <==>
              || (Owns(s, tx, row) && e != Abort(tx) && !(e == Commit(tx) && !Waiting(s, tx)))
              || (e == Acquire(tx) && Waiting(s, tx) && Wants(s, tx) == row && Free(s, row))
  {
  }

  // ── no deadlock ──────────────────────────────────────────────────────────

  /** Nobody ever waits for a reserved row: its owner would own the exchange too. */
  lemma ReservedIsFree(s: State, tx: Tx)
    requires Inv(s) && Waiting(s, tx) && Wants(s, tx).ReservedRow?
    ensures CanStep(s, tx)
  {
    var row := Wants(s, tx);
    var exchange := ExchangeRow(row.id);
    assert RunningHolds(s[tx]) && Owns(s, tx, exchange) && !Owns(s, tx, row);
    forall other | other in s && other != tx ensures !Owns(s, other, row) {
      assert RunningHolds(s[other]);
      assert !Owns(s, other, exchange);
    }
  }

  /** Transactions waiting for a row beyond `row`. */
  ghost function WaitingBeyond(s: State, row: Row): set<Tx> {
    set tx | tx in s && Waiting(s, tx) && Less(row, Wants(s, tx))
  }

  /** Whoever owns a row and is no janitor wants one beyond it. */
  lemma OwnerWantsBeyond(s: State, owner: Tx, row: Row)
    requires Inv(s) && Owns(s, owner, row) && !row.ReservedRow? && !s[owner].sweep && !CanStep(s, owner)
    ensures Waiting(s, owner) && Less(row, Wants(s, owner))
  {
    assert RunningHolds(s[owner]);
    if Wants(s, owner).ReservedRow? {
      ReservedIsFree(s, owner);
    }
  }

  /** Whoever blocks a transaction can step, or leads to one that wants a later row: the
      blocker itself, or what blocks the janitor. */
  lemma NextInLine(s: State, tx: Tx) returns (next: Tx)
    requires Inv(s) && tx in s && !CanStep(s, tx)
    ensures next in s
    ensures CanStep(s, next) || (Waiting(s, next) && Less(Wants(s, tx), Wants(s, next)))
  {
    var row := Wants(s, tx);
    assert !row.ReservedRow? by {
      if row.ReservedRow? {
        ReservedIsFree(s, tx);
      }
    }
    next :| next in s && Owns(s, next, row);
    if !CanStep(s, next) {
      if s[next].sweep {
        next := BlocksTheJanitor(s, next, row);
      } else {
        OwnerWantsBeyond(s, next, row);
      }
    }
  }

  lemma BlocksTheJanitor(s: State, janitor: Tx, row: Row) returns (next: Tx)
    requires Inv(s) && Owns(s, janitor, row) && s[janitor].sweep && !row.ReservedRow? && !CanStep(s, janitor)
    ensures next in s
    ensures CanStep(s, next) || (Waiting(s, next) && Less(row, Wants(s, next)))
  {
    var wanted := Wants(s, janitor);
    assert RunningHolds(s[janitor]) && Owns(s, janitor, JanitorLock);
    assert !wanted.ReservedRow? by {
      if wanted.ReservedRow? {
        ReservedIsFree(s, janitor);
      }
    }
    assert Level(row) <= Level(wanted) <= 2;
    next :| next in s && Owns(s, next, wanted);
    assert next != janitor && RunningHolds(s[next]);
    if !CanStep(s, next) {
      assert !s[next].sweep by {
        assert s[next].sweep ==> Owns(s, next, JanitorLock);
      }
      OwnerWantsBeyond(s, next, wanted);
    }
  }

  /** Following who blocks whom, and whom the janitor waits for, ends at one that can
      step. */
  lemma {:induction false} SomeoneCanStep(s: State, tx: Tx) returns (free: Tx)
    requires Inv(s) && tx in s
    ensures CanStep(s, free)
    decreases if Waiting(s, tx) then |WaitingBeyond(s, Wants(s, tx))| + 1 else 0
  {
    if CanStep(s, tx) {
      return tx;
    }
    var next := NextInLine(s, tx);
    if CanStep(s, next) {
      return next;
    }
    var row, beyond := Wants(s, tx), Wants(s, next);
    assert next in WaitingBeyond(s, row) && next !in WaitingBeyond(s, beyond);
    forall t | t in WaitingBeyond(s, beyond) ensures t in WaitingBeyond(s, row) {
      LessIsTransitive(row, beyond, Wants(s, t));
    }
    SubsetIsSmaller(WaitingBeyond(s, beyond), WaitingBeyond(s, row) - {next});
    free := SomeoneCanStep(s, next);
  }

  lemma LessIsTransitive(a: Row, b: Row, c: Row)
    requires Less(a, b) && Less(b, c)
    ensures Less(a, c)
  {
  }

  ghost predicate Deadlocked(s: State) {
    s != map[] && forall tx :: tx in s ==> !CanStep(s, tx)
  }

  /** No run of transfers, holds, captures, releases, withdraws and expiry sweeps, with
      deposits and confirms whose system account precedes the wallet, reaches a deadlock. */
  lemma NoDeadlock(events: seq<Event>)
    requires AllOrdered(events)
    ensures !Deadlocked(Run(events))
  {
    RunKeepsInv(events);
    var s := Run(events);
    if s != map[] {
      var tx :| tx in s;
      var free := SomeoneCanStep(s, tx);
      assert CanStep(s, free);
    }
  }

  // ── the exact condition for deposits and confirms ────────────────────────

  /** A deposit into `wallet` against a transfer out of it to the system account. */
  ghost function DepositAgainstTransfer(system: Id, wallet: Id): seq<Event> {
    [Begin(0, Deposit(system, wallet)), Begin(1, Transfer(wallet, system))] + [Acquire(0)] + [Acquire(1)]
  }
  /** The same with a withdraw from `wallet` being confirmed. */
  ghost function ConfirmAgainstTransfer(exchange: Id, system: Id, wallet: Id): seq<Event> {
    [Begin(0, Confirm(exchange, system, wallet)), Begin(1, Transfer(wallet, system))]
      + [Acquire(0)] + [Acquire(0)] + [Acquire(0)] + [Acquire(1)]
  }

  /** The deposits all pair `system` with `wallet`, and everything else keeps the order. */
  ghost predicate Deposits(events: seq<Event>, system: Id, wallet: Id) {
    forall e :: e in events ==> PairsDeposit(e, system, wallet)
  }
  ghost predicate PairsDeposit(e: Event, system: Id, wallet: Id) {
    e.Begin? ==> if e.request.Deposit? then e.request == Deposit(system, wallet) else Ordered(e.request)
  }
  ghost predicate Confirms(events: seq<Event>, system: Id, wallet: Id) {
    forall e :: e in events ==> PairsConfirm(e, system, wallet)
  }
  ghost predicate PairsConfirm(e: Event, system: Id, wallet: Id) {
    e.Begin? ==>
      if e.request.Confirm? then e.request.system == system && e.request.wallet == wallet else Ordered(e.request)
  }

  lemma ThoseAreDeposits(system: Id, wallet: Id)
    ensures Deposits(DepositAgainstTransfer(system, wallet), system, wallet)
  {
    forall e | e in DepositAgainstTransfer(system, wallet) ensures PairsDeposit(e, system, wallet) {
      assert e.Begin? ==> e == Begin(0, Deposit(system, wallet)) || e == Begin(1, Transfer(wallet, system));
    }
  }

  lemma ThoseAreConfirms(exchange: Id, system: Id, wallet: Id)
    ensures Confirms(ConfirmAgainstTransfer(exchange, system, wallet), system, wallet)
  {
    forall e | e in ConfirmAgainstTransfer(exchange, system, wallet) ensures PairsConfirm(e, system, wallet) {
      assert e.Begin? ==> e == Begin(0, Confirm(exchange, system, wallet)) || e == Begin(1, Transfer(wallet, system));
    }
  }

  /** Runs whose deposits all pair `system` with `wallet` can deadlock exactly when the
      wallet's id is the smaller one. */
  lemma DepositDeadlockIff(system: Id, wallet: Id)
    ensures (exists events :: Deposits(events, system, wallet) && Deadlocked(Run(events))) <==> wallet < system
  {
    if wallet < system {
      DepositDeadlocks(system, wallet);
      ThoseAreDeposits(system, wallet);
    } else {
      forall events | Deposits(events, system, wallet) ensures !Deadlocked(Run(events)) {
        assert forall i :: 0 <= i < |events| ==> PairsDeposit(events[i], system, wallet);
        NoDeadlock(events);
      }
    }
  }

  /** So can runs with confirms. */
  lemma ConfirmDeadlockIff(system: Id, wallet: Id)
    ensures (exists events :: Confirms(events, system, wallet) && Deadlocked(Run(events))) <==> wallet < system
  {
    if wallet < system {
      ConfirmDeadlocks(0, system, wallet);
      ThoseAreConfirms(0, system, wallet);
    } else {
      forall events | Confirms(events, system, wallet) ensures !Deadlocked(Run(events)) {
        assert forall i :: 0 <= i < |events| ==> PairsConfirm(events[i], system, wallet);
        NoDeadlock(events);
      }
    }
  }

  /** Two transactions side by side. */
  function Pair(a: Running, b: Running): State { map[0 := a, 1 := b] }

  /** Each has the row the other wants. */
  lemma TwoAreStuck(a: Running, b: Running)
    requires a.todo != [] && b.todo != [] && a.todo[0] in b.owned && b.todo[0] in a.owned
    ensures Deadlocked(Pair(a, b))
  {
    var s := Pair(a, b);
    assert Owns(s, 0, b.todo[0]) && Owns(s, 1, a.todo[0]);
  }

  lemma OneMore(events: seq<Event>, e: Event)
    ensures Run(events + [e]) == Step(Run(events), e)
  {
    assert (events + [e])[..|events|] == events;
  }

  lemma FirstTakes(events: seq<Event>, a: Running, b: Running, row: Row, rest: seq<Row>)
    requires Run(events) == Pair(a, b) && a.todo == [row] + rest && row !in a.owned && row !in b.owned
    ensures Run(events + [Acquire(0)]) == Pair(Running(a.owned + {row}, rest, a.sweep), b)
  {
    OneMore(events, Acquire(0));
    var s := Pair(a, b);
    assert Waiting(s, 0) && Wants(s, 0) == row && Free(s, row);
  }

  lemma SecondTakes(events: seq<Event>, a: Running, b: Running, row: Row, rest: seq<Row>)
    requires Run(events) == Pair(a, b) && b.todo == [row] + rest && row !in a.owned && row !in b.owned
    ensures Run(events + [Acquire(1)]) == Pair(a, Running(b.owned + {row}, rest, b.sweep))
  {
    OneMore(events, Acquire(1));
    var s := Pair(a, b);
    assert Waiting(s, 1) && Wants(s, 1) == row && Free(s, row);
  }

  lemma BeginTwo(a: Request, b: Request)
    ensures Run([Begin(0, a), Begin(1, b)])
            == Pair(Running({}, Plan(a), a.ExpireHolds?), Running({}, Plan(b), b.ExpireHolds?))
  {
    OneMore([], Begin(0, a));
    OneMore([Begin(0, a)], Begin(1, b));
    assert [] + [Begin(0, a)] == [Begin(0, a)];
    assert [Begin(0, a)] + [Begin(1, b)] == [Begin(0, a), Begin(1, b)];
  }

  lemma DepositDeadlocks(system: Id, wallet: Id)
    requires wallet < system
    ensures Deadlocked(Run(DepositAgainstTransfer(system, wallet)))
  {
    var a, b := AccountRow(system), AccountRow(wallet);
    var events := [Begin(0, Deposit(system, wallet)), Begin(1, Transfer(wallet, system))];
    BeginTwo(Deposit(system, wallet), Transfer(wallet, system));
    var t := Running({}, [b, a], false);
    FirstTakes(events, Running({}, [a, b], false), t, a, [b]);
    SecondTakes(events + [Acquire(0)], Running({} + {a}, [b], false), t, b, [a]);
    TwoAreStuck(Running({} + {a}, [b], false), Running({} + {b}, [a], false));
  }

  /** A confirm up to its last row, beside a transfer that owns nothing yet. */
  lemma ConfirmAdvances(events: seq<Event>, x: Row, a: Row, h: Row, b: Row, t: Running)
    requires Run(events) == Pair(Running({}, [x, a, h, b], false), t) && t.owned == {}
    requires x != a && x != h && a != h
    ensures Run(events + [Acquire(0)] + [Acquire(0)] + [Acquire(0)]) == Pair(Running({} + {x} + {a} + {h}, [b], false), t)
  {
    FirstTakes(events, Running({}, [x, a, h, b], false), t, x, [a, h, b]);
    FirstTakes(events + [Acquire(0)], Running({} + {x}, [a, h, b], false), t, a, [h, b]);
    FirstTakes(events + [Acquire(0)] + [Acquire(0)], Running({} + {x} + {a}, [h, b], false), t, h, [b]);
  }

  lemma ConfirmDeadlocks(exchange: Id, system: Id, wallet: Id)
    requires wallet < system
    ensures Deadlocked(Run(ConfirmAgainstTransfer(exchange, system, wallet)))
  {
    var x, a, h, b := ExchangeRow(exchange), AccountRow(system), ReservedRow(exchange), AccountRow(wallet);
    var confirm := Confirm(exchange, system, wallet);
    var events := [Begin(0, confirm), Begin(1, Transfer(wallet, system))];
    BeginTwo(confirm, Transfer(wallet, system));
    assert Plan(confirm) == [x, a, h, b];
    var t := Running({}, [b, a], false);
    ConfirmAdvances(events, x, a, h, b, t);
    var c := Running({} + {x} + {a} + {h}, [b], false);
    SecondTakes(events + [Acquire(0)] + [Acquire(0)] + [Acquire(0)], c, t, b, [a]);
    TwoAreStuck(c, Running({} + {b}, [a], false));
  }
}
