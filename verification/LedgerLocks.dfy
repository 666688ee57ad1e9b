/** The rows each ledger operation asks for, against what it writes. */
module LedgerLocks {
  import opened Common
  import opened Ledger
  import opened LedgerInvariants
  import opened LedgerTheorems
  import opened LedgerLaws
  import L = LockOrder

  /** Numbers the exchange ids. */
  type Numbering = ExchangeId -> nat

  /** This hold is among the rows, under the exchange it backs if that is pending. */
  ghost predicate HoldAsked(t: Tables, h: Id, rows: seq<L.Row>, num: Numbering) {
    if BacksPending(t.exchanges, h) then
      forall e :: e in t.exchanges && t.exchanges[e].hold == Some(h) && t.exchanges[e].state.PendingConfirm? ==>
        L.ReservedRow(num(e)) in rows
    else L.HoldRow(h) in rows
  }

  /** `r` is the request of this operation on these tables. The sweep names every exchange
      behind a lapsed hold, and every lapsed hold. */
  ghost predicate IsRequestOf(t: Tables, op: Op, num: Numbering, r: L.Request) {
    match op
    case OpTransfer(_, from, to, _, _, _) => r == L.Transfer(from, to)
    case OpHold(_, account, _, _, _) => r == L.Hold(account)
    case OpCapture(_, hold, to, _) => hold in t.holds ==> r == L.Capture(hold, t.holds[hold].account, to)
    case OpRelease(_, hold) => r == L.Release(hold)
    case OpDeposit(_, character, _, currency, systemId, walletId, _) =>
      r == L.Deposit(SystemFor(t, currency, systemId), WalletFor(t, character, currency, walletId))
    case OpWithdraw(character, currency, _, _, _, _) => r == L.Withdraw(WalletFor(t, character, currency, 0))
    case OpConfirm(exchange, _, _, currency, systemId, _) =>
      exchange in t.exchanges && t.exchanges[exchange].hold.Some? && t.exchanges[exchange].hold.value in t.holds ==>
        r == L.Confirm(num(exchange), SystemFor(t, currency, systemId), t.holds[t.exchanges[exchange].hold.value].account)
    case OpExpireHolds(now) =>
      && r.ExpireHolds?
      && (forall e :: e in t.exchanges && BehindOverdue(t, t.exchanges[e], now) ==> L.ExchangeRow(num(e)) in r.exchanges)
      && (forall h :: h in t.holds && Overdue(t.holds[h], now) ==> HoldAsked(t, h, r.holds, num))
    case OpReconcile => false
  }

  lemma AsksForBoth(a: Id, b: Id)
    ensures L.AccountRow(a) in L.IdOrdered(a, b) && L.AccountRow(b) in L.IdOrdered(a, b)
  {
  }

  lemma InPlan(r: L.Request)
    ensures match r
            case Transfer(from, to) => L.AccountRow(from) in L.Plan(r) && L.AccountRow(to) in L.Plan(r)
            case Hold(account) => L.AccountRow(account) in L.Plan(r)
            case Capture(hold, account, to) =>
              L.HoldRow(hold) in L.Plan(r) && L.AccountRow(account) in L.Plan(r) && L.AccountRow(to) in L.Plan(r)
            case Release(hold) => L.HoldRow(hold) in L.Plan(r)
            case Deposit(system, wallet) => L.AccountRow(system) in L.Plan(r) && L.AccountRow(wallet) in L.Plan(r)
            case Withdraw(wallet) => L.AccountRow(wallet) in L.Plan(r)
            case Confirm(x, system, wallet) =>
              && L.ExchangeRow(x) in L.Plan(r) && L.ReservedRow(x) in L.Plan(r)
              && L.AccountRow(system) in L.Plan(r) && L.AccountRow(wallet) in L.Plan(r)
            case ExpireHolds(exchanges, holds) => forall row :: row in exchanges || row in holds ==> row in L.Plan(r)
  {
    match r
    case Transfer(from, to) => AsksForBoth(from, to);
    case Capture(hold, account, to) =>
      AsksForBoth(account, to);
      assert forall row :: row in L.IdOrdered(account, to) ==> row in L.Plan(r);
      assert L.Plan(r)[0] == L.HoldRow(hold);
    case Confirm(x, system, wallet) =>
      var plan := L.Plan(r);
      assert plan[0] == L.ExchangeRow(x) && plan[1] == L.AccountRow(system) && plan[2] == L.ReservedRow(x);
      assert system != wallet ==> plan[3] == L.AccountRow(wallet);
    case _ =>
  }

  /** Every account whose balance an operation changes is among the rows it locks, and so is
      every account it reserves on. */
  lemma BalancesAreLocked(t: Tables, op: Op, num: Numbering, r: L.Request, a: Id)
    requires Inv(t) && IsRequestOf(t, op, num, r) && a in t.accounts
    ensures a in Step(t, op).accounts
    ensures Step(t, op).accounts[a].balance != t.accounts[a].balance ==> L.AccountRow(a) in L.Plan(r)
    ensures forall h :: h in Step(t, op).holds && h !in t.holds && Step(t, op).holds[h].account == a ==>
              L.AccountRow(a) in L.Plan(r)
  {
    BalancesAfter(t, op, a);
    InPlan(r);
    forall h | h in Step(t, op).holds && h !in t.holds && Step(t, op).holds[h].account == a
      ensures L.AccountRow(a) in L.Plan(r)
    {
      HoldAppearsIff(t, op, h);
    }
  }

  /** Every hold whose state an operation changes is among the rows it locks. */
  lemma HoldsAreLocked(t: Tables, op: Op, num: Numbering, r: L.Request, h: Id)
    requires Inv(t) && IsRequestOf(t, op, num, r) && h in t.holds
    ensures h in Step(t, op).holds
    ensures Step(t, op).holds[h] != t.holds[h] ==> HoldAsked(t, h, L.Plan(r), num)
  {
    HoldsAfter(t, op, h);
    InPlan(r);
    if ConfirmGuards(t, op) && t.exchanges[op.exchange].hold == Some(h) {
      forall e | e in t.exchanges && t.exchanges[e].hold == Some(h) ensures e == op.exchange {
        assert e != op.exchange ==> Apart(t.exchanges[e], t.exchanges[op.exchange]);
      }
    }
    if op.OpExpireHolds? && Overdue(t.holds[h], op.now) {
      assert HoldAsked(t, h, r.holds, num);
    }
  }

  /** Every exchange an operation changes is among the rows it locks. */
  lemma ExchangesAreLocked(t: Tables, op: Op, num: Numbering, r: L.Request, e: ExchangeId)
    requires Inv(t) && IsRequestOf(t, op, num, r) && e in t.exchanges
    ensures e in Step(t, op).exchanges
    ensures Step(t, op).exchanges[e] != t.exchanges[e] ==> L.ExchangeRow(num(e)) in L.Plan(r)
  {
    ExchangesAfter(t, op, e);
    InPlan(r);
  }
}
