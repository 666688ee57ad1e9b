/** When each operation takes effect and what it then leaves, with its guards written out
    over the tables before the call: who may act, what must exist, what must be covered. */
module LedgerLaws {
  import opened Common
  import opened Sums
  import opened Ledger
  import opened LedgerInvariants
  import opened LedgerTheorems
  import HoldFsm

  // ── the guards ───────────────────────────────────────────────────────────

  predicate OwnedBy(t: Tables, a: Id, character: Id) { a in t.accounts && t.accounts[a].owner == Some(character) }

  /** Two accounts of one currency, the payer not frozen, both balances staying in range. */
  predicate Payable(t: Tables, from: Id, to: Id, amount: int) {
    && from != to && from in t.accounts && to in t.accounts
    && !t.accounts[from].frozen && t.accounts[from].currency == t.accounts[to].currency
    && Fits(t.accounts[from].balance - amount) && Fits(t.accounts[to].balance + amount)
  }
  /** The account has this much that no active hold reserves. */
  ghost predicate CanSpare(t: Tables, a: Id, amount: int) {
    a in t.accounts && t.accounts[a].balance - HeldSum(t.holds, a) >= amount
  }

  /** The account's owner sends what the account can spare, under a key not used before. */
  ghost predicate TransferGuards(t: Tables, op: Op) {
    && op.OpTransfer? && op.amount > 0 && op.id !in t.transfers
    && OwnedBy(t, op.from, op.actor) && Payable(t, op.from, op.to, op.amount) && CanSpare(t, op.from, op.amount)
    && forall r :: r in t.transfers ==> !(t.transfers[r].from == op.from && t.transfers[r].client == Some(op.client))
  }
  /** The account's owner reserves what the account can spare. */
  ghost predicate HoldGuards(t: Tables, op: Op) {
    && op.OpHold? && op.amount > 0 && op.id !in t.holds
    && OwnedBy(t, op.account, op.actor) && !t.accounts[op.account].frozen && CanSpare(t, op.account, op.amount)
  }
  /** An active hold that the public commands see, on an account of this character. */
  ghost predicate OwnHold(t: Tables, hold: Id, actor: Id) {
    && hold in t.holds && t.holds[hold].state.Held? && !BacksPending(t.exchanges, hold)
    && OwnedBy(t, t.holds[hold].account, actor)
  }
  ghost predicate CaptureGuards(t: Tables, op: Op) {
    && op.OpCapture? && op.id !in t.transfers && OwnHold(t, op.hold, op.actor)
    && Payable(t, t.holds[op.hold].account, op.to, t.holds[op.hold].amount)
  }
  ghost predicate ReleaseGuards(t: Tables, op: Op) { op.OpRelease? && OwnHold(t, op.hold, op.actor) }

  /** An active hold past its expiry, and the pending exchange behind one. */
  predicate Overdue(h: Hold, now: int) { h.state.Held? && h.expiresAt < now }
  predicate BehindOverdue(t: Tables, x: Exchange, now: int) {
    x.state.PendingConfirm? && x.hold.Some? && x.hold.value in t.holds && Overdue(t.holds[x.hold.value], now)
  }

  ghost function SystemFor(t: Tables, currency: Currency, id: Id): Id {
    var found := FindRow<Id, Account>(t.accounts, SystemOf(currency));
    if found.Some? then found.value else id
  }
  ghost function WalletFor(t: Tables, character: Id, currency: Currency, id: Id): Id {
    var found := FindRow<Id, Account>(t.accounts, WalletOf(character, currency));
    if found.Some? then found.value else id
  }
  /** The row is there, not frozen if that matters, or its id is free; it can take the amount. */
  ghost predicate Ready(t: Tables, found: Option<Id>, id: Id, amount: int, frozenToo: bool) {
    match found
    case None => id !in t.accounts && Fits(amount)
    case Some(a) => a in t.accounts && (frozenToo || !t.accounts[a].frozen) && Fits(t.accounts[a].balance + amount)
  }
  ghost predicate DepositGuards(t: Tables, op: Op) {
    && op.OpDeposit? && op.amount > 0 && op.id !in t.transfers && op.exchange !in t.exchanges && op.character in t.characters
    && var system := FindRow<Id, Account>(t.accounts, SystemOf(op.currency));
    && var wallet := FindRow<Id, Account>(t.accounts, WalletOf(op.character, op.currency));
    && Ready(t, system, op.systemId, -op.amount, false) && Ready(t, wallet, op.walletId, op.amount, true)
    && (system.None? && wallet.None? ==> op.systemId != op.walletId)
  }
  ghost predicate WithdrawGuards(t: Tables, op: Op) {
    && op.OpWithdraw? && op.amount > 0 && op.holdId !in t.holds && op.exchange !in t.exchanges
    && var wallet := FindRow<Id, Account>(t.accounts, WalletOf(op.character, op.currency));
    wallet.Some? && wallet.value in t.accounts && !t.accounts[wallet.value].frozen && CanSpare(t, wallet.value, op.amount)
  }

  // ── the journal ──────────────────────────────────────────────────────────

  /** The row an operation adds to the journal, if it adds one. */
  ghost function NewRow(t: Tables, op: Op): Option<Transfer> {
    if TransferGuards(t, op) then Some(Transfer(op.from, op.to, op.amount, TransferLeg, Some(op.client)))
    else if CaptureGuards(t, op) then
      Some(Transfer(t.holds[op.hold].account, op.to, t.holds[op.hold].amount, CaptureLeg, None))
    else if DepositGuards(t, op) then
      Some(Transfer(SystemFor(t, op.currency, op.systemId), WalletFor(t, op.character, op.currency, op.walletId),
                    op.amount, DepositLeg, None))
    else if ConfirmGuards(t, op) then
      Some(Transfer(t.holds[t.exchanges[op.exchange].hold.value].account, SystemFor(t, op.currency, op.systemId),
                    op.amount, WithdrawLeg, None))
    else None
  }
  ghost function RowId(op: Op): Id {
    if op.OpTransfer? || op.OpCapture? || op.OpDeposit? || op.OpConfirm? then op.id else 0
  }

  lemma TransferWrites(t: Tables, op: Op)
    requires Inv(t) && op.OpTransfer?
    ensures TransferGuards(t, op) ==>
              Step(t, op).transfers == t.transfers[op.id := NewRow(t, op).value] && Step(t, op).holds == t.holds
    ensures !TransferGuards(t, op) ==> Step(t, op) == t
  {
    HeldSumNonNegative(t.accounts, t.holds, op.from);
    CheckHolds(t, op);
    var found := FindRow<Id, Transfer>(t.transfers, IdemRow(op.from, op.client));
    if TransferGuards(t, op) {
      assert found.None?;
      var row := NewRow(t, op).value;
      assert KeyedTransfer(t.accounts, row);
      assert Post(t, op.id, row).Ok?;
      PostEffect(t, op.id, row);
    } else if found.None? {
      forall r | r in t.transfers ensures !IsIdemRow(t.transfers[r], op.from, op.client) {
        assert !IdemRow(op.from, op.client)(t.transfers[r]);
      }
    }
  }

  lemma CaptureWrites(t: Tables, op: Op)
    requires Inv(t) && op.OpCapture?
    ensures CaptureGuards(t, op) ==>
              && Step(t, op).transfers == t.transfers[op.id := NewRow(t, op).value]
              && Step(t, op).holds == t.holds[op.hold := t.holds[op.hold].(state := HoldFsm.Captured)]
    ensures !CaptureGuards(t, op) ==> Step(t, op) == t
  {
    if op.hold in t.holds {
      assert KeyedHold(t.accounts, t.holds[op.hold]);
      CaptureKeepsInv(t, op.actor, op.hold, op.to, op.id);
      CheckHolds(t, op);
    }
  }

  lemma ReleaseWrites(t: Tables, op: Op)
    requires Inv(t) && op.OpRelease?
    ensures Step(t, op).holds ==
              if ReleaseGuards(t, op) then t.holds[op.hold := t.holds[op.hold].(state := HoldFsm.Released)] else t.holds
    ensures Step(t, op).transfers == t.transfers && Step(t, op).accounts == t.accounts && Step(t, op).exchanges == t.exchanges
  {
  }

  lemma HoldWrites(t: Tables, op: Op)
    requires op.OpHold?
    ensures Step(t, op).holds ==
              if HoldGuards(t, op) then t.holds[op.id := Hold(op.account, op.amount, HoldFsm.Held, op.expiresAt)] else t.holds
    ensures Step(t, op).transfers == t.transfers && Step(t, op).accounts == t.accounts && Step(t, op).exchanges == t.exchanges
  {
  }

  lemma DepositWrites(t: Tables, op: Op)
    requires Inv(t) && op.OpDeposit?
    ensures DepositGuards(t, op) ==>
              && Step(t, op).transfers == t.transfers[op.id := NewRow(t, op).value] && Step(t, op).holds == t.holds
              && Step(t, op).exchanges == t.exchanges[op.exchange := Exchange(op.character, op.amount, Deposit, Done, None)]
    ensures !DepositGuards(t, op) ==> Step(t, op) == t
  {
    if DepositGuards(t, op) {
      GuardedDeposit(t, op);
    } else if Step(t, op) != t {
      UnguardedDeposit(t, op);
    }
  }

  /** The tables a deposit posts to, with its two accounts. */
  ghost function Slots(t: Tables, op: Op): Result<(Tables, Id, Id)>
    requires op.OpDeposit?
  {
    match GetOrCreateSystem(t, op.currency, op.systemId)
    case Err(e) => Err(e)
    case Ok((t1, system)) =>
      match GetOrCreateWallet(t1, op.character, op.currency, op.walletId)
      case Err(e) => Err(e)
      case Ok((t2, wallet)) => Ok((t2, system, wallet))
  }

  lemma SlotsFound(t: Tables, op: Op)
    requires Inv(t) && DepositGuards(t, op)
    ensures Slots(t, op).Ok?
    ensures var (t2, system, wallet) := Slots(t, op).value;
            && Inv(t2) && t2 == t.(accounts := t2.accounts)
            && system in t2.accounts && wallet in t2.accounts && system != wallet
            && t2.accounts[system].owner.None? && t2.accounts[wallet].owner.Some? && !t2.accounts[system].frozen
            && Fits(t2.accounts[system].balance - op.amount) && Fits(t2.accounts[wallet].balance + op.amount)
            && NewRow(t, op) == Some(Transfer(system, wallet, op.amount, DepositLeg, None))
  {
    var (t1, system) := GetOrCreateSystem(t, op.currency, op.systemId).value;
    SystemKeepsInv(t, op.currency, op.systemId);
    NewSystemIsNoWallet(t, op, t1, system);
    WalletKeepsInv(t1, op.character, op.currency, op.walletId);
  }

  /** What the slots add: at most those two accounts, blank. */
  lemma SlotsAdd(t: Tables, op: Op)
    requires Inv(t) && DepositGuards(t, op)
    ensures Slots(t, op).Ok?
    ensures var (t2, system, wallet) := Slots(t, op).value;
            && (forall b :: b in t.accounts ==> b in t2.accounts && t2.accounts[b] == t.accounts[b])
            && (forall b :: b in t2.accounts && b !in t.accounts ==> b in {system, wallet} && !t2.accounts[b].frozen)
            && SameSlot(t2.accounts[system], Account(None, op.currency, 0, false))
            && SameSlot(t2.accounts[wallet], Account(Some(op.character), op.currency, 0, false))
  {
    var (t1, system) := GetOrCreateSystem(t, op.currency, op.systemId).value;
    SystemKeepsInv(t, op.currency, op.systemId);
    NewSystemIsNoWallet(t, op, t1, system);
    WalletKeepsInv(t1, op.character, op.currency, op.walletId);
  }

  lemma GuardedDeposit(t: Tables, op: Op)
    requires Inv(t) && DepositGuards(t, op)
    ensures Step(t, op).transfers == t.transfers[op.id := NewRow(t, op).value] && Step(t, op).holds == t.holds
    ensures Step(t, op).exchanges == t.exchanges[op.exchange := Exchange(op.character, op.amount, Deposit, Done, None)]
  {
    SlotsFound(t, op);
    var (t2, system, wallet) := Slots(t, op).value;
    HeldSumNonNegative(t2.accounts, t2.holds, wallet);
    assert CoveredAccount(t2.accounts, t2.holds, wallet);
    var row := NewRow(t, op).value;
    assert Post(t2, op.id, row).Ok?;
    PostEffect(t2, op.id, row);
  }

  lemma UnguardedDeposit(t: Tables, op: Op)
    requires Inv(t) && op.OpDeposit? && Step(t, op) != t
    ensures DepositGuards(t, op)
  {
    var (t1, system) := GetOrCreateSystem(t, op.currency, op.systemId).value;
    SystemKeepsInv(t, op.currency, op.systemId);
    NewSystemIsNoWallet(t, op, t1, system);
    WalletKeepsInv(t1, op.character, op.currency, op.walletId);
  }

  /** The wallet is found, or not, whether or not the system account is new. */
  lemma NewSystemIsNoWallet(t: Tables, op: Op, t1: Tables, system: Id)
    requires Inv(t) && op.OpDeposit? && Inv(t1) && Slotted(t, t1, system, Account(None, op.currency, 0, false))
    ensures FindRow<Id, Account>(t1.accounts, WalletOf(op.character, op.currency)) == FindRow<Id, Account>(t.accounts, WalletOf(op.character, op.currency))
  {
    var wanted := WalletOf(op.character, op.currency);
    var before, after := FindRow<Id, Account>(t.accounts, wanted), FindRow<Id, Account>(t1.accounts, wanted);
    if before.Some? {
      assert wanted(t1.accounts[before.value]);
      assert SameSlot(t1.accounts[before.value], t1.accounts[after.value]);
    }
    forall a | a in t1.accounts && wanted(t1.accounts[a]) ensures a in t.accounts && wanted(t.accounts[a]) {
    }
  }

  lemma WithdrawWrites(t: Tables, op: Op)
    requires op.OpWithdraw?
    ensures WithdrawGuards(t, op) ==>
              var wallet := FindRow<Id, Account>(t.accounts, WalletOf(op.character, op.currency)).value;
              && Step(t, op).holds == t.holds[op.holdId := Hold(wallet, op.amount, HoldFsm.Held, op.now + WITHDRAW_HOLD_SECS)]
              && Step(t, op).exchanges ==
                   t.exchanges[op.exchange := Exchange(op.character, op.amount, Withdraw, PendingConfirm, Some(op.holdId))]
    ensures !WithdrawGuards(t, op) ==> Step(t, op) == t
    ensures Step(t, op).transfers == t.transfers && Step(t, op).accounts == t.accounts
  {
  }

  lemma ConfirmWrites(t: Tables, op: Op)
    requires Inv(t) && op.OpConfirm?
    ensures ConfirmGuards(t, op) ==>
              var hold := t.exchanges[op.exchange].hold.value;
              && Step(t, op).transfers == t.transfers[op.id := NewRow(t, op).value]
              && Step(t, op).holds == t.holds[hold := t.holds[hold].(state := HoldFsm.Captured)]
              && Step(t, op).exchanges == t.exchanges[op.exchange := t.exchanges[op.exchange].(state := Done)]
    ensures !ConfirmGuards(t, op) ==> Step(t, op) == t
  {
    ConfirmSettlesIff(t, op);
    if Step(t, op) != t {
      ConfirmEffect(t, op.exchange, op.character, op.amount, op.currency, op.systemId, op.id);
      assert Paired(t.accounts, t.holds, t.exchanges[op.exchange]);
      var (t1, system) := GetOrCreateSystem(t, op.currency, op.systemId).value;
      assert system == SystemFor(t, op.currency, op.systemId);
      var h := t.holds[t.exchanges[op.exchange].hold.value];
      var row := Transfer(h.account, system, op.amount, WithdrawLeg, None);
      assert row == NewRow(t, op).value;
      PostEffect(t1.(holds := Step(t, op).holds), op.id, row);
    }
  }

  /** The journal after any operation: one row more if its guards held, else the same. */
  lemma JournalAfter(t: Tables, op: Op)
    requires Inv(t)
    ensures Step(t, op).transfers ==
              if NewRow(t, op).Some? then t.transfers[RowId(op) := NewRow(t, op).value] else t.transfers
    ensures NewRow(t, op).Some? ==> RowId(op) !in t.transfers
  {
    match op
    case OpTransfer(_, _, _, _, _, _) => TransferWrites(t, op);
    case OpCapture(_, _, _, _) => CaptureWrites(t, op);
    case OpDeposit(_, _, _, _, _, _, _) => DepositWrites(t, op);
    case OpConfirm(_, _, _, _, _, _) => ConfirmWrites(t, op);
    case OpHold(_, _, _, _, _) => HoldWrites(t, op);
    case OpRelease(_, _) => ReleaseWrites(t, op);
    case OpWithdraw(_, _, _, _, _, _) => WithdrawWrites(t, op);
    case OpExpireHolds(_) =>
    case OpReconcile =>
  }

  // ── the holds ────────────────────────────────────────────────────────────

  /** What an operation makes of one hold row. */
  ghost function HoldStateAfter(t: Tables, op: Op, hold: Id): HoldFsm.HoldState
    requires hold in t.holds
  {
    if CaptureGuards(t, op) && op.hold == hold then HoldFsm.Captured
    else if ConfirmGuards(t, op) && t.exchanges[op.exchange].hold == Some(hold) then HoldFsm.Captured
    else if ReleaseGuards(t, op) && op.hold == hold then HoldFsm.Released
    else if op.OpExpireHolds? && Overdue(t.holds[hold], op.now) then HoldFsm.Released
    else t.holds[hold].state
  }

  lemma HoldsAfter(t: Tables, op: Op, hold: Id)
    requires Inv(t) && hold in t.holds
    ensures hold in Step(t, op).holds && Step(t, op).holds[hold] == t.holds[hold].(state := HoldStateAfter(t, op, hold))
  {
    assert KeyedHold(t.accounts, t.holds[hold]);
    match op
    case OpTransfer(_, _, _, _, _, _) => TransferWrites(t, op);
    case OpCapture(_, _, _, _) => CaptureWrites(t, op);
    case OpDeposit(_, _, _, _, _, _, _) => DepositWrites(t, op);
    case OpConfirm(_, _, _, _, _, _) => ConfirmWrites(t, op);
    case OpHold(_, _, _, _, _) => HoldWrites(t, op);
    case OpRelease(_, _) => ReleaseWrites(t, op);
    case OpWithdraw(_, _, _, _, _, _) => WithdrawWrites(t, op);
    case OpExpireHolds(_) =>
    case OpReconcile =>
  }

  /** In any reachable state an active hold that backs no pending withdraw is captured by a
      step if and only if the step is a capture naming it by the owner of its account, to
      another account of the currency, nothing frozen and everything in range. */
  lemma HoldIsCapturedIff(characters: set<Id>, ops: seq<Op>, op: Op, hold: Id)
    requires var t := Run(characters, ops);
             hold in t.holds && t.holds[hold].state.Held? && !BacksPending(t.exchanges, hold)
    ensures var t := Run(characters, ops);
            hold in Step(t, op).holds
            && (Step(t, op).holds[hold].state.Captured? <==> CaptureGuards(t, op) && op.hold == hold)
  {
    RunKeepsInv(characters, ops);
    HoldsAfter(Run(characters, ops), op, hold);
  }

  /** And released if and only if it is a release by that owner, or expire_holds after its
      expiry. */
  lemma HoldIsReleasedIff(characters: set<Id>, ops: seq<Op>, op: Op, hold: Id)
    requires var t := Run(characters, ops);
             hold in t.holds && t.holds[hold].state.Held? && !BacksPending(t.exchanges, hold)
    ensures var t := Run(characters, ops);
            hold in Step(t, op).holds
            && (Step(t, op).holds[hold].state.Released? <==>
                  (ReleaseGuards(t, op) && op.hold == hold) || (op.OpExpireHolds? && Overdue(t.holds[hold], op.now)))
  {
    RunKeepsInv(characters, ops);
    HoldsAfter(Run(characters, ops), op, hold);
  }

  /** A hold row appears by a hold of the account's owner or a withdraw of the wallet's
      character, within what the account can spare, and by nothing else. */
  lemma HoldAppearsIff(t: Tables, op: Op, hold: Id)
    requires Inv(t) && hold !in t.holds
    ensures hold in Step(t, op).holds <==> (HoldGuards(t, op) && op.id == hold) || (WithdrawGuards(t, op) && op.holdId == hold)
    ensures HoldGuards(t, op) && op.id == hold ==>
              Step(t, op).holds[hold] == Hold(op.account, op.amount, HoldFsm.Held, op.expiresAt)
    ensures WithdrawGuards(t, op) && op.holdId == hold ==>
              && IsWallet(t.accounts[FindRow<Id, Account>(t.accounts, WalletOf(op.character, op.currency)).value], op.character, op.currency)
              && Step(t, op).holds[hold] == Hold(FindRow<Id, Account>(t.accounts, WalletOf(op.character, op.currency)).value, op.amount,
                                                 HoldFsm.Held, op.now + 3600)
  {
    match op
    case OpTransfer(_, _, _, _, _, _) => TransferWrites(t, op);
    case OpCapture(_, _, _, _) => CaptureWrites(t, op);
    case OpDeposit(_, _, _, _, _, _, _) => DepositWrites(t, op);
    case OpConfirm(_, _, _, _, _, _) => ConfirmWrites(t, op);
    case OpHold(_, _, _, _, _) => HoldWrites(t, op);
    case OpRelease(_, _) => ReleaseWrites(t, op);
    case OpWithdraw(_, _, _, _, _, _) => WithdrawWrites(t, op);
    case OpExpireHolds(_) =>
    case OpReconcile =>
  }

  // ── the exchanges ────────────────────────────────────────────────────────

  /** An exchange row appears by a deposit or a withdraw passing its guards, is done by its
      confirm, expired by the sweep behind its lapsed hold, and otherwise stays. */
  lemma ExchangesAfter(t: Tables, op: Op, e: ExchangeId)
    requires Inv(t)
    ensures e !in t.exchanges ==>
              (e in Step(t, op).exchanges <==> (DepositGuards(t, op) || WithdrawGuards(t, op)) && op.exchange == e)
    ensures e in t.exchanges ==>
              && e in Step(t, op).exchanges
              && Step(t, op).exchanges[e] ==
                   if ConfirmGuards(t, op) && op.exchange == e then t.exchanges[e].(state := Done)
                   else if op.OpExpireHolds? && BehindOverdue(t, t.exchanges[e], op.now) then t.exchanges[e].(state := Expired)
                   else t.exchanges[e]
  {
    match op
    case OpTransfer(_, _, _, _, _, _) => TransferKeepsExchanges(t, op);
    case OpCapture(_, _, _, _) => TransferKeepsExchanges(t, op);
    case OpDeposit(_, _, _, _, _, _, _) => DepositWrites(t, op);
    case OpConfirm(_, _, _, _, _, _) => ConfirmWrites(t, op);
    case OpHold(_, _, _, _, _) => HoldWrites(t, op);
    case OpRelease(_, _) => ReleaseWrites(t, op);
    case OpWithdraw(_, _, _, _, _, _) => WithdrawWrites(t, op);
    case OpExpireHolds(_) =>
    case OpReconcile =>
  }

  lemma TransferKeepsExchanges(t: Tables, op: Op)
    requires op.OpTransfer? || op.OpCapture?
    ensures Step(t, op).exchanges == t.exchanges
  {
  }

  // ── the balances ─────────────────────────────────────────────────────────

  lemma NetAfter(transfers: Transfers, id: Id, row: Transfer, b: Id)
    requires id !in transfers
    ensures Net(transfers[id := row], b)
            == Net(transfers, b) + (if row.to == b then row.amount else 0) - (if row.from == b then row.amount else 0)
  {
    SumUpdate(transfers, CreditTo(b), id, row);
    SumUpdate(transfers, DebitFrom(b), id, row);
  }

  /** Balances move as the journal does, and in no other way. */
  lemma BalancesAfter(t: Tables, op: Op, b: Id)
    requires Inv(t) && b in t.accounts
    ensures b in Step(t, op).accounts
    ensures Step(t, op).accounts[b].balance ==
              match NewRow(t, op)
              case None => t.accounts[b].balance
              case Some(row) =>
                t.accounts[b].balance + (if row.to == b then row.amount else 0) - (if row.from == b then row.amount else 0)
  {
    var t' := Step(t, op);
    LedgerTheorems.StepIsLater(t, op);
    assert AccountKept(t.accounts, t'.accounts, b);
    LedgerInvariants.StepKeepsInv(t, op);
    assert JournaledAccount(t.accounts, t.transfers, b) && JournaledAccount(t'.accounts, t'.transfers, b);
    JournalAfter(t, op);
    if NewRow(t, op).Some? {
      NetAfter(t.transfers, RowId(op), NewRow(t, op).value, b);
    }
  }

  /** An account appears as the missing system account or wallet of a deposit, or the
      missing system account of a confirm, with its owner and currency, unfrozen. */
  lemma AccountAppearsIff(t: Tables, op: Op, a: Id)
    requires Inv(t) && a !in t.accounts
    ensures a in Step(t, op).accounts <==>
              || (DepositGuards(t, op) && a in {SystemFor(t, op.currency, op.systemId), WalletFor(t, op.character, op.currency, op.walletId)})
              || (ConfirmGuards(t, op) && a == SystemFor(t, op.currency, op.systemId))
    ensures a in Step(t, op).accounts ==>
              var system := a == SystemFor(t, op.currency, op.systemId);
              && SameSlot(Step(t, op).accounts[a], Account(if system then None else Some(op.character), op.currency, 0, false))
              && !Step(t, op).accounts[a].frozen
  {
    match op
    case OpTransfer(_, _, _, _, _, _) => TransferKeepsKeys(t, op);
    case OpCapture(_, _, _, _) => CaptureKeepsKeys(t, op);
    case OpDeposit(_, _, _, _, _, _, _) => DepositAccounts(t, op, a);
    case OpConfirm(_, _, _, _, _, _) => ConfirmAccounts(t, op, a);
    case OpHold(_, _, _, _, _) =>
    case OpRelease(_, _) =>
    case OpWithdraw(_, _, _, _, _, _) =>
    case OpExpireHolds(_) =>
    case OpReconcile =>
  }

  /** Nothing but reconciliation freezes an account, and nothing unfreezes one. */
  lemma FrozenAfter(t: Tables, op: Op, b: Id)
    requires Inv(t) && b in t.accounts
    ensures b in Step(t, op).accounts
    ensures Step(t, op).accounts[b].frozen == (t.accounts[b].frozen || (op.OpReconcile? && b in ToFreeze(t)))
  {
    match op
    case OpTransfer(_, _, _, _, _, _) => TransferKeepsKeys(t, op);
    case OpCapture(_, _, _, _) => CaptureKeepsKeys(t, op);
    case OpDeposit(_, _, _, _, _, _, _) => DepositAccounts(t, op, b);
    case OpConfirm(_, _, _, _, _, _) => ConfirmAccounts(t, op, b);
    case OpHold(_, _, _, _, _) =>
    case OpRelease(_, _) =>
    case OpWithdraw(_, _, _, _, _, _) =>
    case OpExpireHolds(_) =>
    case OpReconcile =>
  }

  /** Every old row as before but for its balance. */
  ghost predicate OnlyBalances(t: Tables, t': Tables) {
    forall b :: b in t.accounts ==> b in t'.accounts && t'.accounts[b] == t.accounts[b].(balance := t'.accounts[b].balance)
  }

  lemma TransferKeepsKeys(t: Tables, op: Op)
    requires Inv(t) && op.OpTransfer?
    ensures Step(t, op).accounts.Keys == t.accounts.Keys && OnlyBalances(t, Step(t, op))
  {
    TransferWrites(t, op);
  }

  lemma CaptureKeepsKeys(t: Tables, op: Op)
    requires Inv(t) && op.OpCapture?
    ensures Step(t, op).accounts.Keys == t.accounts.Keys && OnlyBalances(t, Step(t, op))
  {
    CaptureWrites(t, op);
  }

  lemma DepositAccounts(t: Tables, op: Op, a: Id)
    requires Inv(t) && op.OpDeposit?
    ensures OnlyBalances(t, Step(t, op))
    ensures a !in t.accounts ==>
              && (a in Step(t, op).accounts <==>
                    DepositGuards(t, op) && a in {SystemFor(t, op.currency, op.systemId), WalletFor(t, op.character, op.currency, op.walletId)})
              && (a in Step(t, op).accounts ==>
                    var system := a == SystemFor(t, op.currency, op.systemId);
                    && SameSlot(Step(t, op).accounts[a], Account(if system then None else Some(op.character), op.currency, 0, false))
                    && !Step(t, op).accounts[a].frozen)
  {
    DepositWrites(t, op);
    if DepositGuards(t, op) {
      SlotsFound(t, op);
      SlotsAdd(t, op);
      PostEffect(Slots(t, op).value.0, op.id, NewRow(t, op).value);
    }
  }

  lemma ConfirmAccounts(t: Tables, op: Op, a: Id)
    requires Inv(t) && op.OpConfirm?
    ensures OnlyBalances(t, Step(t, op))
    ensures a !in t.accounts ==>
              && (a in Step(t, op).accounts <==> ConfirmGuards(t, op) && a == SystemFor(t, op.currency, op.systemId))
              && (a in Step(t, op).accounts ==>
                    && SameSlot(Step(t, op).accounts[a], Account(None, op.currency, 0, false))
                    && !Step(t, op).accounts[a].frozen)
  {
    ConfirmWrites(t, op);
    if ConfirmGuards(t, op) {
      ConfirmSettlesIff(t, op);
      ConfirmEffect(t, op.exchange, op.character, op.amount, op.currency, op.systemId, op.id);
      SystemKeepsInv(t, op.currency, op.systemId);
      var (t1, system) := GetOrCreateSystem(t, op.currency, op.systemId).value;
      PostEffect(t1.(holds := Step(t, op).holds), op.id, NewRow(t, op).value);
    }
  }

  /** The character on whose behalf an operation is carried out. */
  function Acting(op: Op): Option<Id> {
    match op
    case OpTransfer(actor, _, _, _, _, _) => Some(actor)
    case OpHold(actor, _, _, _, _) => Some(actor)
    case OpCapture(actor, _, _, _) => Some(actor)
    case OpRelease(actor, _) => Some(actor)
    case OpDeposit(_, character, _, _, _, _, _) => Some(character)
    case OpWithdraw(character, _, _, _, _, _) => Some(character)
    case OpConfirm(_, character, _, _, _, _) => Some(character)
    case _ => None
  }
  /** The account a transfer, a capture or a confirm pays from. */
  ghost function Payer(t: Tables, op: Op): Option<Id> {
    if TransferGuards(t, op) then Some(op.from)
    else if CaptureGuards(t, op) then Some(t.holds[op.hold].account)
    else if ConfirmGuards(t, op) then Some(t.holds[t.exchanges[op.exchange].hold.value].account)
    else None
  }

  /** In any reachable state a character's balance falls in a step if and only if the step
      is a transfer, a capture or a confirm that pays from that account; the character it
      acts for is then the account's owner. */
  lemma BalanceFallsIff(characters: set<Id>, ops: seq<Op>, op: Op, b: Id)
    requires b in Run(characters, ops).accounts && Run(characters, ops).accounts[b].owner.Some?
    ensures var t := Run(characters, ops);
            && b in Step(t, op).accounts
            && (Step(t, op).accounts[b].balance < t.accounts[b].balance <==> Payer(t, op) == Some(b))
            && (Payer(t, op) == Some(b) ==> Acting(op) == t.accounts[b].owner)
  {
    var t := Run(characters, ops);
    RunKeepsInv(characters, ops);
    BalancesAfter(t, op, b);
    RowIsProper(t, op);
    if DepositGuards(t, op) {
      SystemIsNobodys(t, op, b);
    }
    if ConfirmGuards(t, op) {
      assert Paired(t.accounts, t.holds, t.exchanges[op.exchange]);
    }
  }

  /** Whatever row a step adds pays a positive amount from one account to another. */
  lemma RowIsProper(t: Tables, op: Op)
    requires Inv(t)
    ensures NewRow(t, op).Some? ==> NewRow(t, op).value.amount > 0 && NewRow(t, op).value.from != NewRow(t, op).value.to
  {
    if NewRow(t, op).Some? {
      var t' := Step(t, op);
      JournalAfter(t, op);
      LedgerInvariants.StepKeepsInv(t, op);
      assert KeyedTransfer(t'.accounts, t'.transfers[RowId(op)]);
    }
  }

  lemma SystemIsNobodys(t: Tables, op: Op, b: Id)
    requires op.OpDeposit? && DepositGuards(t, op) && b in t.accounts && t.accounts[b].owner.Some?
    ensures SystemFor(t, op.currency, op.systemId) != b
  {
  }

  // ── the answers ──────────────────────────────────────────────────────────

  /** Answers of the owner's commands: ok exactly under the guards, or for a replayed key,
      and forbidden exactly when the row is there and somebody else's. */
  lemma TransferAnswers(t: Tables, actor: Id, from: Id, to: Id, amount: int, client: Id, id: Id)
    requires Inv(t)
    ensures var (t', r) := DoTransfer(t, actor, from, to, amount, client, id);
            && (r.Ok? && r.value.isNew <==> TransferGuards(t, OpTransfer(actor, from, to, amount, client, id)))
            && (r.Ok? && r.value.isNew ==>
                  r.value == TransferOutcome(id, t'.accounts[from].balance, t.accounts[to].owner, amount, true))
            && (r == Err(Forbidden) <==>
                  from != to && amount > 0 && from in t.accounts && to in t.accounts && t.accounts[from].owner != Some(actor))
            && (r == Err(NotFound) <==>
                  from != to && amount > 0 && (from !in t.accounts || to !in t.accounts)
                  && !Replayed(t, OpTransfer(actor, from, to, amount, client, id)))
            && (r.Ok? && !r.value.isNew <==> from != to && amount > 0 && Replayed(t, OpTransfer(actor, from, to, amount, client, id)))
            && (r.Ok? && !r.value.isNew ==>
                  r.value.transferId in t.transfers && t.transfers[r.value.transferId].from == from && t.transfers[r.value.transferId].client == Some(client))
  {
    var op := OpTransfer(actor, from, to, amount, client, id);
    TransferWrites(t, op);
    var found := FindRow<Id, Transfer>(t.transfers, IdemRow(from, client));
    if found.Some? {
      assert IdemRow(from, client)(t.transfers[found.value]);
      assert KeyedTransfer(t.accounts, t.transfers[found.value]);
    } else {
      forall r | r in t.transfers ensures !IsIdemRow(t.transfers[r], from, client) {
        assert !IdemRow(from, client)(t.transfers[r]);
      }
    }
  }

  /** The owner asks for the second time under this key. */
  ghost predicate Replayed(t: Tables, op: Op) {
    op.OpTransfer? && OwnedBy(t, op.from, op.actor) && exists r :: r in t.transfers && t.transfers[r].from == op.from && t.transfers[r].client == Some(op.client)
  }

  lemma HoldAnswers(t: Tables, actor: Id, account: Id, amount: int, expiresAt: int, id: Id)
    ensures var r := DoHold(t, actor, account, amount, expiresAt, id).1;
            && (r.Ok? <==> HoldGuards(t, OpHold(actor, account, amount, expiresAt, id))) && (r.Ok? ==> r.value == id)
            && (r == Err(Forbidden) <==> amount > 0 && account in t.accounts && t.accounts[account].owner != Some(actor))
            && (r == Err(NotFound) <==> amount > 0 && account !in t.accounts)
  {
  }

  /** The hold exists for the public commands. */
  ghost predicate Seen(t: Tables, hold: Id) { hold in t.holds && !BacksPending(t.exchanges, hold) }

  lemma CaptureAnswers(t: Tables, actor: Id, hold: Id, to: Id, id: Id)
    requires Inv(t)
    ensures var r := DoCapture(t, actor, hold, to, id).1;
            && (r.Ok? <==> CaptureGuards(t, OpCapture(actor, hold, to, id)))
            && (r.Ok? ==> r.value == CaptureOutcome(id, t.accounts[to].owner, t.holds[hold].amount))
            && (r == Err(Forbidden) <==> Seen(t, hold) && !OwnedBy(t, t.holds[hold].account, actor))
            && (r == Err(NotFound) <==> !Seen(t, hold) || (OwnHold(t, hold, actor) && to !in t.accounts))
  {
    if hold in t.holds {
      assert KeyedHold(t.accounts, t.holds[hold]);
    }
    CheckHolds(t, OpCapture(actor, hold, to, id));
  }

  lemma ReleaseAnswers(t: Tables, actor: Id, hold: Id)
    requires Inv(t)
    ensures var r := DoRelease(t, actor, hold).1;
            && (r.Ok? <==> ReleaseGuards(t, OpRelease(actor, hold)))
            && (r == Err(Forbidden) <==> Seen(t, hold) && !OwnedBy(t, t.holds[hold].account, actor))
            && (r == Err(NotFound) <==> !Seen(t, hold))
  {
    if hold in t.holds {
      assert KeyedHold(t.accounts, t.holds[hold]);
    }
  }

  lemma DepositAnswers(t: Tables, op: Op)
    requires Inv(t) && op.OpDeposit?
    ensures var r := DoDeposit(t, op.exchange, op.character, op.amount, op.currency, op.systemId, op.walletId, op.id).1;
            && (r.Ok? && r.value.isNew <==> DepositGuards(t, op))
            && (r.Ok? && r.value.isNew ==> r.value == DepositOutcome(Some(op.character), op.amount, Done, true))
            && (r.Ok? && !r.value.isNew <==>
                  && op.amount > 0 && op.exchange in t.exchanges
                  && t.exchanges[op.exchange].character == op.character && t.exchanges[op.exchange].amount == op.amount)
            && (r == Err(NotFound) <==> op.amount > 0 && op.exchange !in t.exchanges && op.character !in t.characters)
  {
    NewDepositWrites(t, op);
    DepositWrites(t, op);
  }

  /** A deposit answers that it is new exactly when it changes the tables. */
  lemma NewDepositWrites(t: Tables, op: Op)
    requires op.OpDeposit?
    ensures var (t', r) := DoDeposit(t, op.exchange, op.character, op.amount, op.currency, op.systemId, op.walletId, op.id);
            && (r.Ok? && r.value.isNew ==> op.exchange !in t.exchanges && op.exchange in t'.exchanges)
            && (!(r.Ok? && r.value.isNew) ==> t' == t)
  {
  }

  lemma WithdrawAnswers(t: Tables, op: Op)
    requires op.OpWithdraw?
    ensures var r := DoWithdraw(t, op.character, op.currency, op.amount, op.now, op.holdId, op.exchange).1;
            && (r.Ok? <==> WithdrawGuards(t, op)) && (r.Ok? ==> r.value == op.exchange)
            && (r == Err(Invalid) <==> op.amount <= 0)
  {
  }

  lemma ConfirmAnswers(t: Tables, op: Op)
    requires Inv(t) && op.OpConfirm?
    ensures var r := DoWithdrawConfirm(t, op.exchange, op.character, op.amount, op.currency, op.systemId, op.id).1;
            && (r == Err(NotFound) <==> !(op.exchange in t.exchanges && t.exchanges[op.exchange].direction.Withdraw?))
            && (r == Err(Invalid) <==>
                  && op.exchange in t.exchanges && t.exchanges[op.exchange].direction.Withdraw?
                  && !(t.exchanges[op.exchange].character == op.character && t.exchanges[op.exchange].amount == op.amount))
            && (r.Ok? <==> ConfirmGuards(t, op) || ConfirmedBefore(t, op))
            && (r.Ok? ==> r.value == ConfirmOutcome(Done, op.amount))
  {
    ConfirmWrites(t, op);
    if op.exchange in t.exchanges {
      assert Paired(t.accounts, t.holds, t.exchanges[op.exchange]);
    }
    if ConfirmGuards(t, op) {
      ConfirmSettlesIff(t, op);
    }
  }

  /** The withdraw this confirm describes is done already. */
  predicate ConfirmedBefore(t: Tables, op: Op) {
    && op.OpConfirm? && op.exchange in t.exchanges
    && var x := t.exchanges[op.exchange];
    x.direction.Withdraw? && x.state.Done? && x.character == op.character && x.amount == op.amount
  }

  // ── reconciliation ───────────────────────────────────────────────────────

  /** On any tables reconciliation freezes an account exactly if it was unfrozen and its
      balance is not what the journal says, or it is a system account while the done
      exchanges and the journal legs of a direction differ; nothing else changes. */
  lemma FreezesExactly(t: Tables, a: Id)
    requires a in t.accounts
    ensures var (t', frozen) := DoReconcile(t);
            && t' == t.(accounts := t'.accounts) && a in t'.accounts
            && t'.accounts[a] == t.accounts[a].(frozen := t.accounts[a].frozen || a in frozen)
            && (a in frozen <==>
                  !t.accounts[a].frozen
                  && (t.accounts[a].balance != SumOf(t.transfers, CreditTo(a)) - SumOf(t.transfers, DebitFrom(a))
                      || (t.accounts[a].owner.None?
                          && !(SumOf(t.exchanges, DoneIn(Deposit)) == SumOf(t.transfers, LegOf(DepositLeg))
                               && SumOf(t.exchanges, DoneIn(Withdraw)) == SumOf(t.transfers, LegOf(WithdrawLeg))))))
  {
  }
}
