/** What the operations do to the money a character may spend: the balance less the
    active holds. */
module LedgerEffects {
  import opened Common
  import opened Sums
  import opened Ledger
  import opened LedgerInvariants
  import LedgerTheorems
  import HoldFsm

  ghost function Available(t: Tables, a: Id): int
    requires a in t.accounts
  {
    t.accounts[a].balance - HeldSum(t.holds, a)
  }

  /** `amount` more on `a` and on no other account. */
  ghost predicate Gains(t: Tables, t': Tables, a: Id, amount: int) {
    forall b {:trigger b in t'.accounts} :: b in t.accounts ==>
      b in t'.accounts && Available(t', b) == Available(t, b) + if b == a then amount else 0
  }
  ghost predicate Moves(t: Tables, t': Tables, from: Id, to: Id, amount: int) {
    forall b {:trigger b in t'.accounts} :: b in t.accounts ==>
      b in t'.accounts && Available(t', b) == Available(t, b) + (if b == to then amount else 0) - (if b == from then amount else 0)
  }

  lemma PostMoves(t: Tables, id: Id, row: Transfer)
    requires KeyedTransfer(t.accounts, row) && Post(t, id, row).Ok?
    ensures Moves(t, Post(t, id, row).value, row.from, row.to, row.amount)
  {
    PostEffect(t, id, row);
    var t' := Post(t, id, row).value;
    forall b | b in t.accounts
      ensures b in t'.accounts
      ensures Available(t', b) == Available(t, b) + (if b == row.to then row.amount else 0) - (if b == row.from then row.amount else 0)
    {
      assert t'.accounts[b] == t.accounts[b].(balance := t'.accounts[b].balance);
    }
  }

  /** A transfer takes the amount out of what its sender may spend. */
  lemma TransferMovesAvailable(t: Tables, actor: Id, from: Id, to: Id, amount: int, client: Id, id: Id)
    ensures var (t', r) := DoTransfer(t, actor, from, to, amount, client, id);
            r.Ok? ==>
              if r.value.isNew then from in t.accounts && 0 < amount <= Available(t, from) && Moves(t, t', from, to, amount)
              else t' == t
  {
    var r := DoTransfer(t, actor, from, to, amount, client, id).1;
    if r.Ok? && r.value.isNew {
      PostMoves(t, id, Transfer(from, to, amount, TransferLeg, Some(client)));
    }
  }

  /** A hold sets the amount aside; no balance changes. */
  lemma HoldReserves(t: Tables, actor: Id, account: Id, amount: int, expiresAt: int, id: Id)
    ensures var (t', r) := DoHold(t, actor, account, amount, expiresAt, id);
            r.Ok? ==>
              account in t.accounts && 0 < amount <= Available(t, account) && t'.accounts == t.accounts
              && Gains(t, t', account, -amount)
  {
    var (t', r) := DoHold(t, actor, account, amount, expiresAt, id);
    if r.Ok? {
      forall b | b in t.accounts ensures Available(t', b) == Available(t, b) + if b == account then -amount else 0 {
        SumUpdate(t.holds, HeldOn(b), id, Hold(account, amount, HoldFsm.Held, expiresAt));
      }
    }
  }

  /** Closing a held row frees its amount on its account. */
  lemma CloseFrees(t: Tables, hold: Id, state: HoldFsm.HoldState)
    requires hold in t.holds && t.holds[hold].state.Held? && !state.Held?
    ensures Gains(t, t.(holds := t.holds[hold := t.holds[hold].(state := state)]), t.holds[hold].account, t.holds[hold].amount)
  {
    var t' := t.(holds := t.holds[hold := t.holds[hold].(state := state)]);
    var h := t.holds[hold];
    forall b | b in t.accounts ensures Available(t', b) == Available(t, b) + if b == h.account then h.amount else 0 {
      SumUpdate(t.holds, HeldOn(b), hold, h.(state := state));
    }
  }

  /** A release gives back exactly what the hold set aside. */
  lemma ReleaseGivesBack(t: Tables, actor: Id, hold: Id)
    ensures var (t', r) := DoRelease(t, actor, hold);
            r.Ok? ==> hold in t.holds && t'.accounts == t.accounts && Gains(t, t', t.holds[hold].account, t.holds[hold].amount)
  {
    if DoRelease(t, actor, hold).1.Ok? {
      CloseFrees(t, hold, HoldFsm.Released);
    }
  }

  /** A capture spends what was set aside: the payer may spend as much as before, the
      payee the amount more. */
  lemma CaptureSpendsTheReserve(t: Tables, actor: Id, hold: Id, to: Id, id: Id)
    ensures var (t', r) := DoCapture(t, actor, hold, to, id);
            r.Ok? ==> hold in t.holds && Gains(t, t', to, t.holds[hold].amount)
                      && t'.holds[hold].state == HoldFsm.Captured && t'.accounts[t.holds[hold].account].balance
                         == t.accounts[t.holds[hold].account].balance - t.holds[hold].amount
  {
    var (t', r) := DoCapture(t, actor, hold, to, id);
    if r.Ok? {
      var h := t.holds[hold];
      CloseFrees(t, hold, HoldFsm.Captured);
      var settled := t.(holds := t.holds[hold := h.(state := HoldFsm.Captured)]);
      assert t' == Post(settled, id, Transfer(h.account, to, h.amount, CaptureLeg, None)).value;
      forall b | b in t.accounts ensures Available(t', b) == Available(t, b) + if b == to then h.amount else 0 {
        assert b in settled.accounts;
      }
    }
  }

  /** A withdraw sets the amount aside on the character's wallet of that currency. */
  lemma WithdrawReserves(t: Tables, character: Id, currency: Currency, amount: int, now: int, holdId: Id, exchange: ExchangeId)
    ensures var (t', r) := DoWithdraw(t, character, currency, amount, now, holdId, exchange);
            r.Ok? ==>
              exists wallet :: wallet in t.accounts && IsWallet(t.accounts[wallet], character, currency)
                && 0 < amount <= Available(t, wallet) && t'.accounts == t.accounts && Gains(t, t', wallet, -amount)
  {
    var (t', r) := DoWithdraw(t, character, currency, amount, now, holdId, exchange);
    if r.Ok? {
      var wallet := FindRow(t.accounts, WalletOf(character, currency)).value;
      forall b | b in t.accounts ensures Available(t', b) == Available(t, b) + if b == wallet then -amount else 0 {
        SumUpdate(t.holds, HeldOn(b), holdId, Hold(wallet, amount, HoldFsm.Held, now + WITHDRAW_HOLD_SECS));
      }
    }
  }

  /** Characters' accounts keep what may be spent. */
  ghost predicate NobodyLoses(t: Tables, t': Tables) {
    forall b {:trigger b in t'.accounts} :: b in t.accounts && t.accounts[b].owner.Some? ==>
      b in t'.accounts && Available(t', b) >= Available(t, b)
  }

  lemma DepositTakesFromNobody(t: Tables, exchange: ExchangeId, character: Id, amount: int, currency: Currency,
                               systemId: Id, walletId: Id, id: Id)
    requires Inv(t)
    ensures NobodyLoses(t, DoDeposit(t, exchange, character, amount, currency, systemId, walletId, id).0)
  {
    var t' := DoDeposit(t, exchange, character, amount, currency, systemId, walletId, id).0;
    if t' != t {
      var (t1, system) := GetOrCreateSystem(t, currency, systemId).value;
      SystemKeepsInv(t, currency, systemId);
      var (t2, wallet) := GetOrCreateWallet(t1, character, currency, walletId).value;
      WalletKeepsInv(t1, character, currency, walletId);
      var row := Transfer(system, wallet, amount, DepositLeg, None);
      PostMoves(t2, id, row);
      forall b | b in t.accounts && t.accounts[b].owner.Some? ensures b in t'.accounts && Available(t', b) >= Available(t, b) {
        assert b in t2.accounts && t2.accounts[b] == t.accounts[b] && b in Post(t2, id, row).value.accounts;
      }
    }
  }

  ghost function BalanceOf(t: Tables, a: Id): int { if a in t.accounts then t.accounts[a].balance else 0 }

  lemma NewSlotIsEmpty(t: Tables, t': Tables, a: Id, blank: Account)
    requires Slotted(t, t', a, blank) && blank.balance == 0
    ensures forall b :: BalanceOf(t', b) == BalanceOf(t, b)
  {
  }

  lemma PostMovesBalance(t: Tables, id: Id, row: Transfer, b: Id)
    requires KeyedTransfer(t.accounts, row) && Post(t, id, row).Ok?
    ensures BalanceOf(Post(t, id, row).value, b)
            == BalanceOf(t, b) + (if b == row.to then row.amount else 0) - (if b == row.from then row.amount else 0)
  {
    PostEffect(t, id, row);
  }

  /** A new deposit credits exactly the amount to the character's wallet of that currency,
      out of the system account of that currency, and touches no other account. */
  lemma DepositCreditsTheWallet(t: Tables, exchange: ExchangeId, character: Id, amount: int, currency: Currency,
                                systemId: Id, walletId: Id, id: Id, b: Id) returns (system: Id, wallet: Id)
    requires Inv(t)
    requires DoDeposit(t, exchange, character, amount, currency, systemId, walletId, id).1.Ok?
    requires DoDeposit(t, exchange, character, amount, currency, systemId, walletId, id).1.value.isNew
    ensures var t' := DoDeposit(t, exchange, character, amount, currency, systemId, walletId, id).0;
            && system in t'.accounts && IsSystem(t'.accounts[system], currency)
            && wallet in t'.accounts && IsWallet(t'.accounts[wallet], character, currency)
            && BalanceOf(t', b) == BalanceOf(t, b) + (if b == wallet then amount else 0) - (if b == system then amount else 0)
  {
    var created := GetOrCreateSystem(t, currency, systemId).value;
    SystemKeepsInv(t, currency, systemId);
    system := created.1;
    NewSlotIsEmpty(t, created.0, system, Account(None, currency, 0, false));
    var found := GetOrCreateWallet(created.0, character, currency, walletId).value;
    WalletKeepsInv(created.0, character, currency, walletId);
    wallet := found.1;
    NewSlotIsEmpty(created.0, found.0, wallet, Account(Some(character), currency, 0, false));
    var row := Transfer(system, wallet, amount, DepositLeg, None);
    PostEffect(found.0, id, row);
    PostMovesBalance(found.0, id, row, b);
  }

  /** Settling takes nothing from what anybody may spend: the reserve pays. */
  lemma ConfirmTakesFromNobody(t: Tables, exchange: ExchangeId, character: Id, amount: int, currency: Currency, systemId: Id, id: Id)
    requires Inv(t)
    ensures NobodyLoses(t, DoWithdrawConfirm(t, exchange, character, amount, currency, systemId, id).0)
  {
    var t' := DoWithdrawConfirm(t, exchange, character, amount, currency, systemId, id).0;
    if t' != t {
      LedgerTheorems.ConfirmEffect(t, exchange, character, amount, currency, systemId, id);
      var (t1, system) := GetOrCreateSystem(t, currency, systemId).value;
      SystemKeepsInv(t, currency, systemId);
      var hold := t.exchanges[exchange].hold.value;
      var h := t.holds[hold];
      CloseFrees(t, hold, HoldFsm.Captured);
      assert t'.holds == t.holds[hold := h.(state := HoldFsm.Captured)];
      var freed, t2 := t.(holds := t'.holds), t1.(holds := t'.holds);
      PostMoves(t2, id, Transfer(h.account, system, amount, WithdrawLeg, None));
      assert KeyedHold(t.accounts, h);
      forall b | b in t.accounts && t.accounts[b].owner.Some? ensures b in t'.accounts && Available(t', b) >= Available(t, b) {
        assert b in freed.accounts && t2.accounts[b] == t.accounts[b];
        assert b in Post(t2, id, Transfer(h.account, system, amount, WithdrawLeg, None)).value.accounts;
      }
    }
  }

  lemma ExpiryTakesFromNobody(t: Tables, now: int)
    requires Inv(t)
    ensures NobodyLoses(t, DoExpireHolds(t, now))
  {
    var holds' := DoExpireHolds(t, now).holds;
    forall b | b in t.accounts ensures HeldSum(holds', b) <= HeldSum(t.holds, b) {
      forall h | h in t.holds ensures HeldOn(b)(holds'[h]) <= HeldOn(b)(t.holds[h]) {
        assert KeyedHold(t.accounts, t.holds[h]);
      }
      SumMonotone(holds', t.holds, HeldOn(b), HeldOn(b));
    }
  }

  /** Who an operation is carried out for, and what it may draw on. */
  predicate Spends(op: Op, t: Tables, b: Id)
    requires b in t.accounts
  {
    match op
    case OpTransfer(actor, from, _, _, _, _) => from == b && t.accounts[b].owner == Some(actor)
    case OpHold(actor, account, _, _, _) => account == b && t.accounts[b].owner == Some(actor)
    case OpWithdraw(character, currency, _, _, _, _) => IsWallet(t.accounts[b], character, currency)
    case _ => false
  }

  lemma MoneyCommandsSpend(t: Tables, op: Op, b: Id)
    requires Inv(t) && b in t.accounts && b in Step(t, op).accounts
    requires op.OpTransfer? || op.OpHold? || op.OpCapture? || op.OpRelease?
    ensures Available(Step(t, op), b) < Available(t, b) ==> Spends(op, t, b)
  {
    if Step(t, op) != t {
      match op
      case OpTransfer(actor, from, to, amount, client, id) =>
        TransferMovesAvailable(t, actor, from, to, amount, client, id);
      case OpHold(actor, account, amount, expiresAt, id) =>
        HoldReserves(t, actor, account, amount, expiresAt, id);
      case OpCapture(actor, hold, to, id) =>
        CaptureSpendsTheReserve(t, actor, hold, to, id);
        assert KeyedHold(t.accounts, t.holds[hold]);
      case OpRelease(actor, hold) =>
        ReleaseGivesBack(t, actor, hold);
        assert KeyedHold(t.accounts, t.holds[hold]);
    }
  }

  lemma ExchangeCommandsSpend(t: Tables, op: Op, b: Id)
    requires Inv(t) && b in t.accounts && t.accounts[b].owner.Some? && b in Step(t, op).accounts
    requires op.OpDeposit? || op.OpWithdraw? || op.OpConfirm? || op.OpExpireHolds? || op.OpReconcile?
    ensures Available(Step(t, op), b) < Available(t, b) ==> Spends(op, t, b)
  {
    if Step(t, op) != t {
      match op
      case OpDeposit(exchange, character, amount, currency, systemId, walletId, id) =>
        DepositTakesFromNobody(t, exchange, character, amount, currency, systemId, walletId, id);
      case OpWithdraw(character, currency, amount, now, holdId, exchange) =>
        WithdrawReserves(t, character, currency, amount, now, holdId, exchange);
      case OpConfirm(exchange, character, amount, currency, systemId, id) =>
        ConfirmTakesFromNobody(t, exchange, character, amount, currency, systemId, id);
      case OpExpireHolds(now) => ExpiryTakesFromNobody(t, now);
      case OpReconcile =>
    }
  }

  /** What a character may spend falls only by their own transfer, hold or withdraw on
      that account; nothing anybody else does, and no settlement or janitor, lowers it. */
  lemma OnlyTheOwnerSpends(t: Tables, op: Op, b: Id)
    requires Inv(t) && b in t.accounts && t.accounts[b].owner.Some?
    ensures b in Step(t, op).accounts
    ensures Available(Step(t, op), b) < Available(t, b) ==> Spends(op, t, b)
  {
    LedgerTheorems.StepIsLater(t, op);
    assert LedgerTheorems.AccountKept(t.accounts, Step(t, op).accounts, b);
    if op.OpTransfer? || op.OpHold? || op.OpCapture? || op.OpRelease? {
      MoneyCommandsSpend(t, op, b);
    } else {
      ExchangeCommandsSpend(t, op, b);
    }
  }
}
