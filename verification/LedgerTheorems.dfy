/** What the ledger promises over whole runs. */
module LedgerTheorems {
  import opened Common
  import opened Sums
  import opened Ledger
  import opened LedgerInvariants
  import HoldFsm

  // ── covered wallets ──────────────────────────────────────────────────────

  /** In every reachable state the active holds of a character wallet are between
      zero and its balance. */
  lemma HoldsStayCovered(characters: set<Id>, ops: seq<Op>, a: Id)
    requires a in Run(characters, ops).accounts && Run(characters, ops).accounts[a].owner.Some?
    ensures var t := Run(characters, ops); 0 <= HeldSum(t.holds, a) <= t.accounts[a].balance
  {
    RunKeepsInv(characters, ops);
    var t := Run(characters, ops);
    assert CoveredAccount(t.accounts, t.holds, a);
    HeldSumNonNegative(t.accounts, t.holds, a);
  }

  /** Why the operation failed, if it did. */
  ghost function Failure(t: Tables, op: Op): Option<Fail> {
    match op
    case OpTransfer(actor, from, to, amount, client, id) => FailOf(DoTransfer(t, actor, from, to, amount, client, id).1)
    case OpHold(actor, account, amount, expiresAt, id) => FailOf(DoHold(t, actor, account, amount, expiresAt, id).1)
    case OpCapture(actor, hold, to, id) => FailOf(DoCapture(t, actor, hold, to, id).1)
    case OpRelease(actor, hold) => FailOf(DoRelease(t, actor, hold).1)
    case OpDeposit(exchange, character, amount, currency, systemId, walletId, id) =>
      FailOf(DoDeposit(t, exchange, character, amount, currency, systemId, walletId, id).1)
    case OpWithdraw(character, currency, amount, now, holdId, exchange) =>
      FailOf(DoWithdraw(t, character, currency, amount, now, holdId, exchange).1)
    case OpConfirm(exchange, character, amount, currency, systemId, id) =>
      FailOf(DoWithdrawConfirm(t, exchange, character, amount, currency, systemId, id).1)
    case OpExpireHolds(now) => None
    case OpReconcile => None
  }
  function FailOf<T>(r: Result<T>): Option<Fail> {
    if r.Err? then Some(r.fail) else None
  }

  /** The unchecked debits in capture and confirm never meet the balance CHECK, and
      no internal "vanished row" error is reachable. */
  lemma CheckNeverFires(characters: set<Id>, ops: seq<Op>, op: Op)
    ensures Failure(Run(characters, ops), op) !in {Some(CheckViolated), Some(Internal)}
  {
    RunKeepsInv(characters, ops);
    CheckHolds(Run(characters, ops), op);
  }

  lemma CheckHolds(t: Tables, op: Op)
    requires Inv(t)
    ensures Failure(t, op) !in {Some(CheckViolated), Some(Internal)}
  {
    match op
    case OpTransfer(actor, from, to, amount, client, id) => TransferKeepsInv(t, actor, from, to, amount, client, id);
    case OpCapture(actor, hold, to, id) => CaptureKeepsInv(t, actor, hold, to, id);
    case OpDeposit(exchange, character, amount, currency, systemId, walletId, id) =>
      DepositKeepsInv(t, exchange, character, amount, currency, systemId, walletId, id);
    case OpConfirm(exchange, character, amount, currency, systemId, id) =>
      ConfirmKeepsInv(t, exchange, character, amount, currency, systemId, id);
    case OpHold(actor, account, amount, expiresAt, id) =>
    case OpRelease(actor, hold) =>
    case OpWithdraw(character, currency, amount, now, holdId, exchange) =>
    case OpExpireHolds(now) =>
    case OpReconcile =>
  }

  /** A failed operation leaves no trace. */
  lemma FailureChangesNothing(t: Tables, op: Op)
    requires Failure(t, op).Some?
    ensures Step(t, op) == t
  {
  }

  // ── rows only move forward ───────────────────────────────────────────────

  /** `h'` is a later version of hold `h`. */
  ghost predicate LaterHold(h: Hold, h': Hold) {
    h'.account == h.account && h'.amount == h.amount && (h.state.Held? || h'.state == h.state)
  }
  ghost predicate LaterExchange(x: Exchange, x': Exchange) {
    x' == x.(state := x'.state) && (x.state.PendingConfirm? || x'.state == x.state)
  }
  ghost predicate HoldKept(holds: Holds, holds': Holds, h: Id)
    requires h in holds
  {
    h in holds' && LaterHold(holds[h], holds'[h])
  }
  ghost predicate ExchangeKept(exchanges: Exchanges, exchanges': Exchanges, e: ExchangeId)
    requires e in exchanges
  {
    e in exchanges' && LaterExchange(exchanges[e], exchanges'[e])
  }
  ghost predicate TransferKept(transfers: Transfers, transfers': Transfers, r: Id)
    requires r in transfers
  {
    r in transfers' && transfers'[r] == transfers[r]
  }
  ghost predicate AccountKept(accounts: Accounts, accounts': Accounts, a: Id)
    requires a in accounts
  {
    a in accounts' && SameSlot(accounts'[a], accounts[a])
  }
  /** `t'` is a later state of the same ledger: the journal only grows, accounts keep
      owner and currency, holds and exchanges only leave their open state. */
  ghost predicate Later(t: Tables, t': Tables) {
    && (forall a {:trigger AccountKept(t.accounts, t'.accounts, a)} :: a in t.accounts ==> AccountKept(t.accounts, t'.accounts, a))
    && (forall r {:trigger TransferKept(t.transfers, t'.transfers, r)} :: r in t.transfers ==> TransferKept(t.transfers, t'.transfers, r))
    && (forall h {:trigger HoldKept(t.holds, t'.holds, h)} :: h in t.holds ==> HoldKept(t.holds, t'.holds, h))
    && (forall e {:trigger ExchangeKept(t.exchanges, t'.exchanges, e)} :: e in t.exchanges ==> ExchangeKept(t.exchanges, t'.exchanges, e))
  }

  lemma LaterIsTransitive(t: Tables, u: Tables, v: Tables)
    requires Later(t, u) && Later(u, v)
    ensures Later(t, v)
  {
    forall a | a in t.accounts ensures AccountKept(t.accounts, v.accounts, a) {
      assert AccountKept(t.accounts, u.accounts, a) && AccountKept(u.accounts, v.accounts, a);
    }
    forall r | r in t.transfers ensures TransferKept(t.transfers, v.transfers, r) {
      assert TransferKept(t.transfers, u.transfers, r) && TransferKept(u.transfers, v.transfers, r);
    }
    forall h | h in t.holds ensures HoldKept(t.holds, v.holds, h) {
      assert HoldKept(t.holds, u.holds, h) && HoldKept(u.holds, v.holds, h);
    }
    forall e | e in t.exchanges ensures ExchangeKept(t.exchanges, v.exchanges, e) {
      assert ExchangeKept(t.exchanges, u.exchanges, e) && ExchangeKept(u.exchanges, v.exchanges, e);
    }
  }

  lemma PostIsLater(t: Tables, id: Id, row: Transfer)
    requires row.from in t.accounts && row.to in t.accounts && Post(t, id, row).Ok?
    ensures Later(t, Post(t, id, row).value)
  {
  }

  lemma GetOrCreateIsLater(t: Tables, wanted: Account -> bool, blank: Account, id: Id)
    requires GetOrCreate(t, wanted, blank, id).Ok?
    ensures var (t', a) := GetOrCreate(t, wanted, blank, id).value;
            Later(t, t')
  {
  }

  /** Adding an exchange, or moving one on from its open state, is a step forward. */
  lemma ExchangeStepIsLater(t: Tables, u: Tables, e: ExchangeId, x: Exchange)
    requires Later(t, u) && (e in t.exchanges ==> e in u.exchanges && LaterExchange(u.exchanges[e], x))
    ensures Later(t, u.(exchanges := u.exchanges[e := x]))
  {
    var v := u.(exchanges := u.exchanges[e := x]);
    forall f | f in t.exchanges ensures ExchangeKept(t.exchanges, v.exchanges, f) {
      assert ExchangeKept(t.exchanges, u.exchanges, f);
    }
  }

  lemma DepositIsLater(t: Tables, exchange: ExchangeId, character: Id, amount: int, currency: Currency,
                       systemId: Id, walletId: Id, id: Id)
    ensures Later(t, DoDeposit(t, exchange, character, amount, currency, systemId, walletId, id).0)
  {
    if DoDeposit(t, exchange, character, amount, currency, systemId, walletId, id).1.Ok? && exchange !in t.exchanges {
      var (t1, system) := GetOrCreateSystem(t, currency, systemId).value;
      var (t2, wallet) := GetOrCreateWallet(t1, character, currency, walletId).value;
      var row := Transfer(system, wallet, amount, DepositLeg, None);
      GetOrCreateIsLater(t, SystemOf(currency), Account(None, currency, 0, false), systemId);
      GetOrCreateIsLater(t1, WalletOf(character, currency), Account(Some(character), currency, 0, false), walletId);
      LaterIsTransitive(t, t1, t2);
      PostIsLater(t2, id, row);
      var t3 := Post(t2, id, row).value;
      LaterIsTransitive(t, t2, t3);
      ExchangeStepIsLater(t, t3, exchange, Exchange(character, amount, Deposit, Done, None));
    }
  }

  lemma ConfirmIsLater(t: Tables, exchange: ExchangeId, character: Id, amount: int, currency: Currency, systemId: Id, id: Id)
    ensures Later(t, DoWithdrawConfirm(t, exchange, character, amount, currency, systemId, id).0)
  {
    if DoWithdrawConfirm(t, exchange, character, amount, currency, systemId, id).1.Ok? && t.exchanges[exchange].state.PendingConfirm? {
      var (t1, system) := GetOrCreateSystem(t, currency, systemId).value;
      var hold := t.exchanges[exchange].hold.value;
      var h := t1.holds[hold];
      var row := Transfer(h.account, system, h.amount, WithdrawLeg, None);
      GetOrCreateIsLater(t, SystemOf(currency), Account(None, currency, 0, false), systemId);
      CloseIsLater(t, t1, hold, HoldFsm.Captured);
      var t2 := t1.(holds := t1.holds[hold := h.(state := HoldFsm.Captured)]);
      PostIsLater(t2, id, row);
      var t3 := Post(t2, id, row).value;
      LaterIsTransitive(t, t2, t3);
      ExchangeStepIsLater(t, t3, exchange, t.exchanges[exchange].(state := Done));
    }
  }

  lemma CloseIsLater(t: Tables, u: Tables, hold: Id, state: HoldFsm.HoldState)
    requires Later(t, u) && hold in u.holds && u.holds[hold].state.Held?
    ensures Later(t, u.(holds := u.holds[hold := u.holds[hold].(state := state)]))
  {
    var v := u.(holds := u.holds[hold := u.holds[hold].(state := state)]);
    forall h | h in t.holds ensures HoldKept(t.holds, v.holds, h) {
      assert HoldKept(t.holds, u.holds, h);
    }
  }

  lemma TransferIsLater(t: Tables, actor: Id, from: Id, to: Id, amount: int, client: Id, id: Id)
    ensures Later(t, DoTransfer(t, actor, from, to, amount, client, id).0)
  {
    if DoTransfer(t, actor, from, to, amount, client, id).0 != t {
      PostIsLater(t, id, Transfer(from, to, amount, TransferLeg, Some(client)));
    }
  }

  lemma CaptureIsLater(t: Tables, actor: Id, hold: Id, to: Id, id: Id)
    ensures Later(t, DoCapture(t, actor, hold, to, id).0)
  {
    if DoCapture(t, actor, hold, to, id).0 != t {
      var h := t.holds[hold];
      var settled := t.(holds := t.holds[hold := h.(state := HoldFsm.Captured)]);
      var row := Transfer(h.account, to, h.amount, CaptureLeg, None);
      assert Later(t, settled);
      PostIsLater(settled, id, row);
      LaterIsTransitive(t, settled, Post(settled, id, row).value);
    }
  }

  lemma HoldIsLater(t: Tables, actor: Id, account: Id, amount: int, expiresAt: int, id: Id)
    ensures Later(t, DoHold(t, actor, account, amount, expiresAt, id).0)
  {
  }

  lemma ReleaseIsLater(t: Tables, actor: Id, hold: Id)
    ensures Later(t, DoRelease(t, actor, hold).0)
  {
  }

  lemma WithdrawIsLater(t: Tables, character: Id, currency: Currency, amount: int, now: int, holdId: Id, exchange: ExchangeId)
    ensures Later(t, DoWithdraw(t, character, currency, amount, now, holdId, exchange).0)
  {
  }

  lemma JanitorIsLater(t: Tables, now: int)
    ensures Later(t, DoExpireHolds(t, now)) && Later(t, DoReconcile(t).0)
  {
  }

  lemma StepIsLater(t: Tables, op: Op)
    ensures Later(t, Step(t, op))
  {
    match op
    case OpTransfer(actor, from, to, amount, client, id) => TransferIsLater(t, actor, from, to, amount, client, id);
    case OpHold(actor, account, amount, expiresAt, id) => HoldIsLater(t, actor, account, amount, expiresAt, id);
    case OpCapture(actor, hold, to, id) => CaptureIsLater(t, actor, hold, to, id);
    case OpRelease(actor, hold) => ReleaseIsLater(t, actor, hold);
    case OpDeposit(exchange, character, amount, currency, systemId, walletId, id) =>
      DepositIsLater(t, exchange, character, amount, currency, systemId, walletId, id);
    case OpWithdraw(character, currency, amount, now, holdId, exchange) =>
      WithdrawIsLater(t, character, currency, amount, now, holdId, exchange);
    case OpConfirm(exchange, character, amount, currency, systemId, id) =>
      ConfirmIsLater(t, exchange, character, amount, currency, systemId, id);
    case OpExpireHolds(now) => JanitorIsLater(t, now);
    case OpReconcile => JanitorIsLater(t, 0);
  }

  /** `ops` applied to `t`. */
  ghost function RunFrom(t: Tables, ops: seq<Op>): Tables {
    if ops == [] then t else Step(RunFrom(t, ops[..|ops| - 1]), ops[|ops| - 1])
  }

  /** Rows only move forward, however long the run. */
  lemma {:induction false} RunIsLater(t: Tables, ops: seq<Op>)
    ensures Later(t, RunFrom(t, ops))
  {
    if ops != [] {
      RunIsLater(t, ops[..|ops| - 1]);
      StepIsLater(RunFrom(t, ops[..|ops| - 1]), ops[|ops| - 1]);
      LaterIsTransitive(t, RunFrom(t, ops[..|ops| - 1]), RunFrom(t, ops));
    }
  }

  lemma {:induction false} RunFromKeepsInv(t: Tables, ops: seq<Op>)
    requires Inv(t)
    ensures Inv(RunFrom(t, ops))
  {
    if ops != [] {
      RunFromKeepsInv(t, ops[..|ops| - 1]);
      StepKeepsInv(RunFrom(t, ops[..|ops| - 1]), ops[|ops| - 1]);
    }
  }

  // ── withdraws ────────────────────────────────────────────────────────────

  /** In every reachable state a withdraw has a hold of the same amount on a wallet
      of the same character, and their states correspond. */
  lemma WithdrawMatchesHold(characters: set<Id>, ops: seq<Op>, e: ExchangeId)
    requires e in Run(characters, ops).exchanges && Run(characters, ops).exchanges[e].direction.Withdraw?
    ensures var t := Run(characters, ops);
            var x := t.exchanges[e];
            && x.hold.Some? && x.hold.value in t.holds
            && var h := t.holds[x.hold.value];
            && h.amount == x.amount && h.account in t.accounts && t.accounts[h.account].owner == Some(x.character)
            && match x.state {
                 case PendingConfirm => h.state == HoldFsm.Held
                 case Done => h.state == HoldFsm.Captured
                 case Expired => h.state == HoldFsm.Released
               }
            && forall f :: f in t.exchanges && f != e ==> t.exchanges[f].hold != x.hold
  {
    RunKeepsInv(characters, ops);
    var t := Run(characters, ops);
    assert Paired(t.accounts, t.holds, t.exchanges[e]);
    forall f | f in t.exchanges && f != e ensures t.exchanges[f].hold != t.exchanges[e].hold {
      assert Apart(t.exchanges[e], t.exchanges[f]);
    }
  }

  /** The hold of a pending withdraw does not exist for the public API. */
  lemma PendingHoldIsUntouchable(t: Tables, e: ExchangeId, actor: Id, to: Id, id: Id)
    requires e in t.exchanges && t.exchanges[e].state.PendingConfirm? && t.exchanges[e].hold.Some?
    ensures var hold := t.exchanges[e].hold.value;
            DoCapture(t, actor, hold, to, id) == (t, Err(NotFound)) && DoRelease(t, actor, hold) == (t, Err(NotFound))
  {
  }

  /** The steps of a run that turned withdraw `e` into a settled one. */
  ghost function Settlements(t: Tables, ops: seq<Op>, e: ExchangeId): nat {
    if ops == [] then 0
    else
      var before := RunFrom(t, ops[..|ops| - 1]);
      var after := RunFrom(t, ops);
      Settlements(t, ops[..|ops| - 1], e) + (if !Settled(before, e) && Settled(after, e) then 1 else 0)
  }
  ghost predicate Settled(t: Tables, e: ExchangeId) {
    e in t.exchanges && t.exchanges[e].direction.Withdraw? && t.exchanges[e].state.Done?
  }

  /** A withdraw settles at most once in any run, and exactly once if it ends settled. */
  lemma {:induction false} WithdrawSettlesAtMostOnce(t: Tables, ops: seq<Op>, e: ExchangeId)
    requires !Settled(t, e)
    ensures Settlements(t, ops, e) == if Settled(RunFrom(t, ops), e) then 1 else 0
  {
    if ops != [] {
      WithdrawSettlesAtMostOnce(t, ops[..|ops| - 1], e);
      var before := RunFrom(t, ops[..|ops| - 1]);
      StepIsLater(before, ops[|ops| - 1]);
      assert e in before.exchanges ==> ExchangeKept(before.exchanges, RunFrom(t, ops).exchanges, e);
    }
  }

  lemma OthersSettleNothing(t: Tables, op: Op, e: ExchangeId)
    requires !op.OpConfirm? && !Settled(t, e)
    ensures !Settled(Step(t, op), e)
  {
  }

  lemma ConfirmSettlesItsOwn(t: Tables, exchange: ExchangeId, character: Id, amount: int, currency: Currency, systemId: Id, id: Id)
    requires Inv(t) && DoWithdrawConfirm(t, exchange, character, amount, currency, systemId, id).0 != t
    ensures exchange in t.exchanges && t.exchanges[exchange].character == character && t.exchanges[exchange].amount == amount
    ensures var t' := DoWithdrawConfirm(t, exchange, character, amount, currency, systemId, id).0;
            && (forall e :: Settled(t', e) && !Settled(t, e) ==> e == exchange)
            && id in t'.transfers && id !in t.transfers
            && var row := t'.transfers[id];
            && row.kind == WithdrawLeg && row.amount == amount
            && row.from in t.accounts && t.accounts[row.from].owner == Some(character)
            && row.to in t'.accounts && t'.accounts[row.to].owner == None
            && row.from in t'.accounts && t'.accounts[row.from].balance == t.accounts[row.from].balance - amount
  {
    var (t1, system) := GetOrCreateSystem(t, currency, systemId).value;
    SystemKeepsInv(t, currency, systemId);
    ConfirmSettles(t1, exchange, system, id);
    assert Paired(t.accounts, t.holds, t.exchanges[exchange]);
  }

  /** Only a confirm that describes the exchange settles it; it moves exactly the
      reserved amount from the character's wallet to a system account. */
  lemma OnlyConfirmSettles(t: Tables, op: Op, e: ExchangeId)
    requires Inv(t) && !Settled(t, e) && Settled(Step(t, op), e)
    ensures op.OpConfirm? && op.exchange == e
    ensures e in t.exchanges && op.character == t.exchanges[e].character && op.amount == t.exchanges[e].amount
    ensures var t' := Step(t, op);
            && op.id in t'.transfers && op.id !in t.transfers
            && var row := t'.transfers[op.id];
            && row.kind == WithdrawLeg && row.amount == op.amount
            && row.from in t.accounts && t.accounts[row.from].owner == Some(op.character)
            && row.to in t'.accounts && t'.accounts[row.to].owner == None
            && row.from in t'.accounts && t'.accounts[row.from].balance == t.accounts[row.from].balance - op.amount
  {
    if op.OpConfirm? {
      ConfirmSettlesItsOwn(t, op.exchange, op.character, op.amount, op.currency, op.systemId, op.id);
    } else {
      OthersSettleNothing(t, op, e);
    }
  }

  /** Re-confirming a settled withdraw, at any later time, changes nothing and
      returns the stored result. */
  lemma ConfirmIsIdempotent(t: Tables, later: seq<Op>, e: ExchangeId, currency: Currency, systemId: Id, id: Id)
    requires Settled(t, e)
    ensures var u := RunFrom(t, later);
            DoWithdrawConfirm(u, e, t.exchanges[e].character, t.exchanges[e].amount, currency, systemId, id)
            == (u, Ok(ConfirmOutcome(Done, t.exchanges[e].amount)))
  {
    RunIsLater(t, later);
    var u := RunFrom(t, later);
    assert ExchangeKept(t.exchanges, u.exchanges, e);
  }

  /** Retrying a transfer with the same key, at any later time and whatever else the
      request says, moves nothing and acks the original transfer. */
  lemma TransferIsIdempotent(t: Tables, actor: Id, from: Id, to: Id, amount: int, client: Id, id: Id,
                             later: seq<Op>, to': Id, amount': int, id': Id)
    requires Inv(t)
    requires DoTransfer(t, actor, from, to, amount, client, id).1.Ok? && DoTransfer(t, actor, from, to, amount, client, id).1.value.isNew
    requires from != to' && amount' > 0
    ensures var u := RunFrom(DoTransfer(t, actor, from, to, amount, client, id).0, later);
            && from in u.accounts
            && DoTransfer(u, actor, from, to', amount', client, id')
               == (u, Ok(TransferOutcome(id, u.accounts[from].balance, None, amount', false)))
  {
    var t' := DoTransfer(t, actor, from, to, amount, client, id).0;
    var u := RunFrom(t', later);
    TransferKeepsInv(t, actor, from, to, amount, client, id);
    RunFromKeepsInv(t', later);
    RunIsLater(t', later);
    assert TransferKept(t'.transfers, u.transfers, id) && AccountKept(t'.accounts, u.accounts, from);
    var found := FindRow(u.transfers, IdemRow(from, client));
    assert IdemRow(from, client)(u.transfers[id]);
    assert SameKey(u.transfers[id], u.transfers[found.value]);
  }

  /** A deposit credits once: sent again at any later time it moves nothing and returns
      the stored result, and under the same id for anybody or anything else it is refused. */
  lemma DepositIsIdempotent(t: Tables, exchange: ExchangeId, character: Id, amount: int, currency: Currency,
                            systemId: Id, walletId: Id, id: Id,
                            later: seq<Op>, character': Id, amount': int, currency': Currency, id': Id)
    requires DoDeposit(t, exchange, character, amount, currency, systemId, walletId, id).1.Ok?
    requires DoDeposit(t, exchange, character, amount, currency, systemId, walletId, id).1.value.isNew && amount' > 0
    ensures var u := RunFrom(DoDeposit(t, exchange, character, amount, currency, systemId, walletId, id).0, later);
            DoDeposit(u, exchange, character', amount', currency', systemId, walletId, id') ==
              (u, if character' == character && amount' == amount then Ok(DepositOutcome(None, amount, Done, false)) else Err(Invalid))
  {
    var t' := DoDeposit(t, exchange, character, amount, currency, systemId, walletId, id).0;
    var u := RunFrom(t', later);
    RunIsLater(t', later);
    assert ExchangeKept(t'.exchanges, u.exchanges, exchange);
  }

  /** A deposit under an id in use, by a deposit or by a withdraw, moves nothing at any
      later time: the stored result if character and amount agree, else invalid. */
  lemma DepositUnderKnownId(t: Tables, exchange: ExchangeId, later: seq<Op>, character: Id, amount: int, currency: Currency,
                            systemId: Id, walletId: Id, id: Id)
    requires exchange in t.exchanges && amount > 0
    ensures var u := RunFrom(t, later);
            var x := t.exchanges[exchange];
            && exchange in u.exchanges
            && DoDeposit(u, exchange, character, amount, currency, systemId, walletId, id) ==
                 (u, if x.character == character && x.amount == amount
                     then Ok(DepositOutcome(None, amount, u.exchanges[exchange].state, false)) else Err(Invalid))
  {
    RunIsLater(t, later);
    var u := RunFrom(t, later);
    assert ExchangeKept(t.exchanges, u.exchanges, exchange);
  }

  /** The operation is a deposit under this id that credits its amount. */
  ghost predicate Credits(t: Tables, op: Op, e: ExchangeId) {
    && op.OpDeposit? && op.exchange == e
    && var r := DoDeposit(t, e, op.character, op.amount, op.currency, op.systemId, op.walletId, op.id).1;
       r.Ok? && r.value.isNew
  }
  ghost predicate WasCredited(characters: set<Id>, ops: seq<Op>, e: ExchangeId) {
    exists i {:trigger ops[i]} :: 0 <= i < |ops| && Credits(Run(characters, ops[..i]), ops[i], e)
  }

  lemma KnownIdStays(t: Tables, op: Op, e: ExchangeId)
    requires e in t.exchanges
    ensures e in Step(t, op).exchanges && Step(t, op).exchanges[e].direction == t.exchanges[e].direction && !Credits(t, op, e)
  {
    StepIsLater(t, op);
    assert ExchangeKept(t.exchanges, Step(t, op).exchanges, e);
  }

  lemma NewDeposit(t: Tables, op: Op, e: ExchangeId)
    requires e !in t.exchanges && op.OpDeposit?
    ensures Credits(t, op, e) <==> e in Step(t, op).exchanges
    ensures e in Step(t, op).exchanges ==> Step(t, op).exchanges[e].direction.Deposit?
  {
  }

  lemma NewWithdraw(t: Tables, op: Op, e: ExchangeId)
    requires e !in t.exchanges && !op.OpDeposit?
    ensures e in Step(t, op).exchanges ==> Step(t, op).exchanges[e].direction.Withdraw?
  {
    match op
    case OpConfirm(exchange, character, amount, currency, systemId, id) =>
      assert DoWithdrawConfirm(t, exchange, character, amount, currency, systemId, id).0.exchanges.Keys == t.exchanges.Keys;
    case OpExpireHolds(now) => assert DoExpireHolds(t, now).exchanges.Keys == t.exchanges.Keys;
    case _ =>
  }

  lemma WasCreditedBefore(characters: set<Id>, ops: seq<Op>, op: Op, e: ExchangeId)
    ensures WasCredited(characters, ops + [op], e) <==> WasCredited(characters, ops, e) || Credits(Run(characters, ops), op, e)
  {
    var all := ops + [op];
    assert all[..|ops|] == ops && all[|ops|] == op;
    forall i | 0 <= i < |ops| ensures all[i] == ops[i] && all[..i] == ops[..i] {}
  }

  /** The ids in use for deposits are those under which the run credited something. */
  lemma {:induction false} DepositIdsWereCredited(characters: set<Id>, ops: seq<Op>, e: ExchangeId)
    ensures var t := Run(characters, ops);
            WasCredited(characters, ops, e) <==> e in t.exchanges && t.exchanges[e].direction.Deposit?
  {
    if ops != [] {
      var before, op := ops[..|ops| - 1], ops[|ops| - 1];
      assert ops == before + [op];
      DepositIdsWereCredited(characters, before, e);
      WasCreditedBefore(characters, before, op, e);
      var t := Run(characters, before);
      if e in t.exchanges {
        KnownIdStays(t, op, e);
      } else if op.OpDeposit? {
        NewDeposit(t, op, e);
      } else {
        NewWithdraw(t, op, e);
      }
    }
  }

  /** An acked deposit was credited, by this call or an earlier one, if and only if its id
      is not in use for a withdraw. */
  lemma AckedDepositWasCreditedIff(characters: set<Id>, ops: seq<Op>, op: Op)
    requires op.OpDeposit?
    requires DoDeposit(Run(characters, ops), op.exchange, op.character, op.amount, op.currency, op.systemId, op.walletId, op.id).1.Ok?
    ensures var t := Run(characters, ops);
            WasCredited(characters, ops + [op], op.exchange)
            <==> !(op.exchange in t.exchanges && t.exchanges[op.exchange].direction.Withdraw?)
  {
    WasCreditedBefore(characters, ops, op, op.exchange);
    DepositIdsWereCredited(characters, ops, op.exchange);
  }

  // ── conservation ─────────────────────────────────────────────────────────

  ghost function Total(t: Tables, scope: Option<Currency>): int {
    SumOf(t.accounts, BalanceIn(scope))
  }

  /** A post within the scope moves money inside it. */
  lemma PostChangesTotal(t: Tables, id: Id, row: Transfer, scope: Option<Currency>)
    requires KeyedTransfer(t.accounts, row) && Post(t, id, row).Ok?
    ensures Total(Post(t, id, row).value, scope) == Total(t, scope)
              + (if scope.None? || t.accounts[row.to].currency == scope.value then row.amount else 0)
              - (if scope.None? || t.accounts[row.from].currency == scope.value then row.amount else 0)
  {
    var f := BalanceIn(scope);
    var debited := t.accounts[row.from].(balance := t.accounts[row.from].balance - row.amount);
    var credited := t.accounts[row.to].(balance := t.accounts[row.to].balance + row.amount);
    SumUpdateTwo(t.accounts, f, row.from, debited, row.to, credited);
  }

  lemma GetOrCreateKeepsTotal(t: Tables, wanted: Account -> bool, blank: Account, id: Id, scope: Option<Currency>)
    requires blank.balance == 0 && GetOrCreate(t, wanted, blank, id).Ok?
    ensures Total(GetOrCreate(t, wanted, blank, id).value.0, scope) == Total(t, scope)
  {
    SumUpdate(t.accounts, BalanceIn(scope), id, blank);
  }

  predicate Fits(balance: int) { I64_MIN <= balance <= I64_MAX }

  /** The guards a confirm passes on its way to settling, all readable before the call:
      a pending withdraw as described, nothing frozen, room in both balances, free ids. */
  ghost predicate ConfirmGuards(t: Tables, op: Op) {
    && op.OpConfirm? && op.id !in t.transfers
    && op.exchange in t.exchanges
    && var x := t.exchanges[op.exchange];
    && x.direction.Withdraw? && x.state.PendingConfirm? && x.character == op.character && x.amount == op.amount
    && x.hold.Some? && x.hold.value in t.holds
    && var wallet := t.holds[x.hold.value].account;
    && wallet in t.accounts && !t.accounts[wallet].frozen && Fits(t.accounts[wallet].balance - op.amount)
    && match FindRow(t.accounts, SystemOf(op.currency))
       case None => op.systemId !in t.accounts && Fits(op.amount)
       case Some(system) => !t.accounts[system].frozen && Fits(t.accounts[system].balance + op.amount)
  }

  lemma GuardedConfirmSettles(t: Tables, op: Op)
    requires Inv(t) && ConfirmGuards(t, op)
    ensures !Settled(t, op.exchange) && Settled(Step(t, op), op.exchange)
  {
    var (t1, system) := GetOrCreateSystem(t, op.currency, op.systemId).value;
    SystemKeepsInv(t, op.currency, op.systemId);
    ConfirmSettles(t1, op.exchange, system, op.id);
  }

  /** Those guards decide. */
  lemma ConfirmSettlesIff(t: Tables, op: Op)
    requires Inv(t) && op.OpConfirm?
    ensures ConfirmGuards(t, op) <==> !Settled(t, op.exchange) && Settled(Step(t, op), op.exchange)
  {
    if ConfirmGuards(t, op) {
      GuardedConfirmSettles(t, op);
    }
    if Step(t, op) != t {
      ConfirmEffect(t, op.exchange, op.character, op.amount, op.currency, op.systemId, op.id);
      assert Paired(t.accounts, t.holds, t.exchanges[op.exchange]);
    }
  }

  /** A confirm that settles names another currency than its withdraw's: the tenant's
      currency setting changed between the two legs. */
  ghost predicate SettlesAcross(t: Tables, op: Op) {
    ConfirmGuards(t, op) && WithdrawCurrency(t, op.exchange) != Some(op.currency)
  }
  ghost function WithdrawCurrency(t: Tables, e: ExchangeId): Option<Currency> {
    if e in t.exchanges && t.exchanges[e].hold.Some? && t.exchanges[e].hold.value in t.holds
      && t.holds[t.exchanges[e].hold.value].account in t.accounts
    then Some(t.accounts[t.holds[t.exchanges[e].hold.value].account].currency)
    else None
  }

  lemma DepositKeepsTotal(t: Tables, exchange: ExchangeId, character: Id, amount: int, currency: Currency,
                          systemId: Id, walletId: Id, id: Id, scope: Option<Currency>)
    requires Inv(t)
    ensures Total(DoDeposit(t, exchange, character, amount, currency, systemId, walletId, id).0, scope) == Total(t, scope)
  {
    if DoDeposit(t, exchange, character, amount, currency, systemId, walletId, id).0 != t {
      var (t1, system) := GetOrCreateSystem(t, currency, systemId).value;
      var (t2, wallet) := GetOrCreateWallet(t1, character, currency, walletId).value;
      SystemKeepsInv(t, currency, systemId);
      WalletKeepsInv(t1, character, currency, walletId);
      GetOrCreateKeepsTotal(t, SystemOf(currency), Account(None, currency, 0, false), systemId, scope);
      GetOrCreateKeepsTotal(t1, WalletOf(character, currency), Account(Some(character), currency, 0, false), walletId, scope);
      PostChangesTotal(t2, id, Transfer(system, wallet, amount, DepositLeg, None), scope);
    }
  }

  /** What a settling confirm does to the accounts. */
  lemma ConfirmEffect(t: Tables, exchange: ExchangeId, character: Id, amount: int, currency: Currency, systemId: Id, id: Id)
    requires Inv(t) && DoWithdrawConfirm(t, exchange, character, amount, currency, systemId, id).0 != t
    ensures var t' := DoWithdrawConfirm(t, exchange, character, amount, currency, systemId, id).0;
            var (t1, system) := GetOrCreateSystem(t, currency, systemId).value;
            && GetOrCreateSystem(t, currency, systemId).Ok?
            && exchange in t.exchanges && t.exchanges[exchange].hold.Some? && t.exchanges[exchange].hold.value in t.holds
            && !Settled(t, exchange) && Settled(t', exchange)
            && var h := t.holds[t.exchanges[exchange].hold.value];
            && var t2 := t1.(holds := t'.holds);
            var row := Transfer(h.account, system, amount, WithdrawLeg, None);
            && KeyedTransfer(t2.accounts, row) && Post(t2, id, row).Ok?
            && t'.accounts == Post(t2, id, row).value.accounts
            && t2.accounts[system].currency == currency
            && WithdrawCurrency(t, exchange) == Some(t2.accounts[h.account].currency)
  {
    var (t1, system) := GetOrCreateSystem(t, currency, systemId).value;
    SystemKeepsInv(t, currency, systemId);
    ConfirmSettles(t1, exchange, system, id);
    assert Paired(t.accounts, t.holds, t.exchanges[exchange]);
  }

  lemma ConfirmChangesTotal(t: Tables, exchange: ExchangeId, character: Id, amount: int, currency: Currency,
                            systemId: Id, id: Id, scope: Option<Currency>)
    requires Inv(t)
    ensures var t' := DoWithdrawConfirm(t, exchange, character, amount, currency, systemId, id).0;
            var across := !Settled(t, exchange) && Settled(t', exchange) && WithdrawCurrency(t, exchange) != Some(currency);
            Total(t', scope) == Total(t, scope)
              + (if across && scope == Some(currency) then amount else 0)
              - (if across && scope.Some? && WithdrawCurrency(t, exchange) == scope then amount else 0)
  {
    var t' := DoWithdrawConfirm(t, exchange, character, amount, currency, systemId, id).0;
    if t' != t {
      ConfirmEffect(t, exchange, character, amount, currency, systemId, id);
      var (t1, system) := GetOrCreateSystem(t, currency, systemId).value;
      GetOrCreateKeepsTotal(t, SystemOf(currency), Account(None, currency, 0, false), systemId, scope);
      var h := t.holds[t.exchanges[exchange].hold.value];
      PostChangesTotal(t1.(holds := t'.holds), id, Transfer(h.account, system, amount, WithdrawLeg, None), scope);
    }
  }

  /** Settling across currencies moves the amount from one currency to the other. */
  lemma AcrossChangesTotals(t: Tables, op: Op, scope: Option<Currency>)
    requires Inv(t) && SettlesAcross(t, op)
    ensures Total(Step(t, op), scope) == Total(t, scope)
              + (if scope == Some(op.currency) then op.amount else 0)
              - (if scope.Some? && scope == WithdrawCurrency(t, op.exchange) then op.amount else 0)
  {
    ConfirmSettlesIff(t, op);
    ConfirmChangesTotal(t, op.exchange, op.character, op.amount, op.currency, op.systemId, op.id, scope);
  }

  /** One step changes no total, of all currencies together or of one, unless it
      settles a withdraw across currencies. */
  lemma StepConserves(t: Tables, op: Op, scope: Option<Currency>)
    requires Inv(t) && (scope.None? || !SettlesAcross(t, op))
    ensures Total(Step(t, op), scope) == Total(t, scope)
  {
    match op
    case OpTransfer(actor, from, to, amount, client, id) =>
      if DoTransfer(t, actor, from, to, amount, client, id).0 != t {
        PostChangesTotal(t, id, Transfer(from, to, amount, TransferLeg, Some(client)), scope);
      }
    case OpCapture(actor, hold, to, id) =>
      if DoCapture(t, actor, hold, to, id).0 != t {
        var h := t.holds[hold];
        assert KeyedHold(t.accounts, h);
        var settled := t.(holds := t.holds[hold := h.(state := HoldFsm.Captured)]);
        PostChangesTotal(settled, id, Transfer(h.account, to, h.amount, CaptureLeg, None), scope);
      }
    case OpDeposit(exchange, character, amount, currency, systemId, walletId, id) =>
      DepositKeepsTotal(t, exchange, character, amount, currency, systemId, walletId, id, scope);
    case OpConfirm(exchange, character, amount, currency, systemId, id) =>
      ConfirmSettlesIff(t, op);
      ConfirmChangesTotal(t, exchange, character, amount, currency, systemId, id, scope);
    case OpReconcile => ReconcileFreezesNothing(t);
    case _ =>
  }

  /** Exactly when a step conserves every currency on its own. */
  lemma StepConservesEachCurrencyIff(t: Tables, op: Op)
    requires Inv(t)
    ensures (forall c: Currency :: Total(Step(t, op), Some(c)) == Total(t, Some(c))) <==> !SettlesAcross(t, op)
  {
    if SettlesAcross(t, op) {
      AcrossChangesTotals(t, op, Some(op.currency));
      assert Paired(t.accounts, t.holds, t.exchanges[op.exchange]);
      assert Total(Step(t, op), Some(op.currency)) != Total(t, Some(op.currency));
    } else {
      forall c: Currency ensures Total(Step(t, op), Some(c)) == Total(t, Some(c)) {
        StepConserves(t, op, Some(c));
      }
    }
  }

  /** Money is never created or destroyed: all balances together are always zero. */
  lemma {:induction false} GrandTotalIsZero(characters: set<Id>, ops: seq<Op>)
    ensures Total(Run(characters, ops), None) == 0
  {
    if ops != [] {
      GrandTotalIsZero(characters, ops[..|ops| - 1]);
      RunKeepsInv(characters, ops[..|ops| - 1]);
      StepConserves(Run(characters, ops[..|ops| - 1]), ops[|ops| - 1], None);
    }
  }

  /** Every deposit, withdraw and confirm of the run uses the tenant's one currency. */
  ghost predicate UsesCurrency(ops: seq<Op>, currency: Currency) {
    forall i :: 0 <= i < |ops| ==> Names(ops[i], currency)
  }

  ghost predicate AllIn(accounts: Accounts, currency: Currency) {
    forall a :: a in accounts ==> accounts[a].currency == currency
  }

  /** An account a step leaves behind is an old one, or a new unfrozen one in the
      currency the operation names. */
  ghost predicate OldOrNewAccount(accounts: Accounts, accounts': Accounts, currency: Currency, a: Id)
    requires a in accounts'
  {
    || (a in accounts && SameSlot(accounts'[a], accounts[a]) && accounts'[a].frozen == accounts[a].frozen)
    || (accounts'[a].currency == currency && !accounts'[a].frozen)
  }
  ghost predicate OldOrNew(t: Tables, t': Tables, currency: Currency) {
    forall a {:trigger OldOrNewAccount(t.accounts, t'.accounts, currency, a)} ::
      a in t'.accounts ==> OldOrNewAccount(t.accounts, t'.accounts, currency, a)
  }

  ghost predicate Names(op: Op, currency: Currency) {
    match op
    case OpDeposit(_, _, _, c, _, _, _) => c == currency
    case OpWithdraw(_, c, _, _, _, _) => c == currency
    case OpConfirm(_, _, _, c, _, _) => c == currency
    case _ => true
  }

  lemma NewSlotNamesIt(t: Tables, t': Tables, a: Id, blank: Account)
    requires Slotted(t, t', a, blank) && !blank.frozen
    ensures OldOrNew(t, t', blank.currency)
  {
  }

  lemma PostKeepsSlots(t: Tables, id: Id, row: Transfer, currency: Currency)
    requires row.from in t.accounts && row.to in t.accounts && Post(t, id, row).Ok?
    ensures OldOrNew(t, Post(t, id, row).value, currency)
  {
  }

  lemma OldOrNewIsTransitive(t: Tables, u: Tables, v: Tables, currency: Currency)
    requires OldOrNew(t, u, currency) && OldOrNew(u, v, currency)
    ensures OldOrNew(t, v, currency)
  {
    forall a | a in v.accounts ensures OldOrNewAccount(t.accounts, v.accounts, currency, a) {
      assert OldOrNewAccount(u.accounts, v.accounts, currency, a);
      assert a in u.accounts ==> OldOrNewAccount(t.accounts, u.accounts, currency, a);
    }
  }

  lemma DepositAccounts(t: Tables, exchange: ExchangeId, character: Id, amount: int, currency: Currency,
                        systemId: Id, walletId: Id, id: Id)
    requires Inv(t)
    ensures OldOrNew(t, DoDeposit(t, exchange, character, amount, currency, systemId, walletId, id).0, currency)
  {
    var t' := DoDeposit(t, exchange, character, amount, currency, systemId, walletId, id).0;
    if t' != t {
      var (t1, system) := GetOrCreateSystem(t, currency, systemId).value;
      SystemKeepsInv(t, currency, systemId);
      NewSlotNamesIt(t, t1, system, Account(None, currency, 0, false));
      var (t2, wallet) := GetOrCreateWallet(t1, character, currency, walletId).value;
      WalletKeepsInv(t1, character, currency, walletId);
      NewSlotNamesIt(t1, t2, wallet, Account(Some(character), currency, 0, false));
      OldOrNewIsTransitive(t, t1, t2, currency);
      PostKeepsSlots(t2, id, Transfer(system, wallet, amount, DepositLeg, None), currency);
      OldOrNewIsTransitive(t, t2, t', currency);
    }
  }

  lemma ConfirmAccounts(t: Tables, exchange: ExchangeId, character: Id, amount: int, currency: Currency, systemId: Id, id: Id)
    requires Inv(t)
    ensures OldOrNew(t, DoWithdrawConfirm(t, exchange, character, amount, currency, systemId, id).0, currency)
  {
    if DoWithdrawConfirm(t, exchange, character, amount, currency, systemId, id).0 != t {
      SystemKeepsInv(t, currency, systemId);
    }
  }

  lemma TransferAccounts(t: Tables, actor: Id, from: Id, to: Id, amount: int, client: Id, id: Id, currency: Currency)
    ensures OldOrNew(t, DoTransfer(t, actor, from, to, amount, client, id).0, currency)
  {
  }

  lemma CaptureAccounts(t: Tables, actor: Id, hold: Id, to: Id, id: Id, currency: Currency)
    ensures OldOrNew(t, DoCapture(t, actor, hold, to, id).0, currency)
  {
  }

  lemma HoldAccounts(t: Tables, actor: Id, account: Id, amount: int, expiresAt: int, id: Id, hold: Id, currency: Currency)
    ensures OldOrNew(t, DoHold(t, actor, account, amount, expiresAt, id).0, currency)
    ensures OldOrNew(t, DoRelease(t, actor, hold).0, currency)
  {
  }

  lemma WithdrawAccounts(t: Tables, character: Id, currency: Currency, amount: int, now: int, holdId: Id, exchange: ExchangeId)
    ensures OldOrNew(t, DoWithdraw(t, character, currency, amount, now, holdId, exchange).0, currency)
  {
  }

  lemma StepAccounts(t: Tables, op: Op, currency: Currency)
    requires Inv(t) && Names(op, currency)
    ensures OldOrNew(t, Step(t, op), currency)
  {
    match op
    case OpTransfer(actor, from, to, amount, client, id) =>
      TransferAccounts(t, actor, from, to, amount, client, id, currency);
    case OpHold(actor, account, amount, expiresAt, id) =>
      HoldAccounts(t, actor, account, amount, expiresAt, id, 0, currency);
    case OpCapture(actor, hold, to, id) => CaptureAccounts(t, actor, hold, to, id, currency);
    case OpRelease(actor, hold) => HoldAccounts(t, actor, 0, 0, 0, 0, hold, currency);
    case OpDeposit(exchange, character, amount, c, systemId, walletId, id) =>
      DepositAccounts(t, exchange, character, amount, c, systemId, walletId, id);
    case OpWithdraw(character, c, amount, now, holdId, exchange) =>
      WithdrawAccounts(t, character, c, amount, now, holdId, exchange);
    case OpConfirm(exchange, character, amount, c, systemId, id) =>
      ConfirmAccounts(t, exchange, character, amount, c, systemId, id);
    case OpExpireHolds(now) => assert DoExpireHolds(t, now).accounts == t.accounts;
    case OpReconcile => ReconcileFreezesNothing(t);
  }

  lemma SettledHasCurrency(t: Tables, e: ExchangeId)
    requires Inv(t) && e in t.exchanges && t.exchanges[e].direction.Withdraw?
    ensures WithdrawCurrency(t, e).Some?
    ensures forall c :: AllIn(t.accounts, c) ==> WithdrawCurrency(t, e) == Some(c)
  {
    assert Paired(t.accounts, t.holds, t.exchanges[e]);
  }

  /** No confirm of the run settles into another currency than its withdraw's. */
  ghost predicate ConfirmsMatch(characters: set<Id>, ops: seq<Op>) {
    forall i {:trigger ops[i]} :: 0 <= i < |ops| ==> !SettlesAcross(Run(characters, ops[..i]), ops[i])
  }

  lemma MatchingPrefix(characters: set<Id>, ops: seq<Op>, n: nat)
    requires ConfirmsMatch(characters, ops) && n <= |ops|
    ensures ConfirmsMatch(characters, ops[..n])
  {
    forall i | 0 <= i < n ensures !SettlesAcross(Run(characters, ops[..n][..i]), ops[..n][i]) {
      assert ops[..n][..i] == ops[..i] && ops[..n][i] == ops[i];
    }
  }

  /** If each settling confirm names its withdraw's currency, every currency sums to zero
      over all accounts, the system account included, whatever else changes currency. */
  lemma {:induction false} EachCurrencySumsToZero(characters: set<Id>, ops: seq<Op>, c: Currency)
    requires ConfirmsMatch(characters, ops)
    ensures Total(Run(characters, ops), Some(c)) == 0
  {
    if ops != [] {
      var n := |ops| - 1;
      MatchingPrefix(characters, ops, n);
      EachCurrencySumsToZero(characters, ops[..n], c);
      RunKeepsInv(characters, ops[..n]);
      assert !SettlesAcross(Run(characters, ops[..n]), ops[n]);
      StepConserves(Run(characters, ops[..n]), ops[n], Some(c));
    }
  }

  /** Every currency is at zero. */
  ghost predicate Balanced(t: Tables) {
    forall c: Currency {:trigger Total(t, Some(c))} :: Total(t, Some(c)) == 0
  }

  /** And only then: every currency is at zero all along a run exactly when no confirm of
      it settles across currencies. */
  lemma EachCurrencyIsZeroThroughoutIff(characters: set<Id>, ops: seq<Op>)
    ensures (forall n {:trigger ops[..n]} :: 0 <= n <= |ops| ==> Balanced(Run(characters, ops[..n])))
            <==> ConfirmsMatch(characters, ops)
  {
    if ConfirmsMatch(characters, ops) {
      forall n, c: Currency | 0 <= n <= |ops| ensures Total(Run(characters, ops[..n]), Some(c)) == 0 {
        MatchingPrefix(characters, ops, n);
        EachCurrencySumsToZero(characters, ops[..n], c);
      }
    }
    if forall n {:trigger ops[..n]} :: 0 <= n <= |ops| ==> Balanced(Run(characters, ops[..n])) {
      forall i | 0 <= i < |ops| ensures !SettlesAcross(Run(characters, ops[..i]), ops[i]) {
        assert ops[..i + 1][..i] == ops[..i] && ops[..i + 1][i] == ops[i];
        var t, t' := Run(characters, ops[..i]), Run(characters, ops[..i + 1]);
        RunKeepsInv(characters, ops[..i]);
        assert Balanced(t) && Balanced(t');
        StepConservesEachCurrencyIff(t, ops[i]);
      }
    }
  }

  lemma {:induction false} OneCurrencyOnly(characters: set<Id>, ops: seq<Op>, currency: Currency)
    requires UsesCurrency(ops, currency)
    ensures AllIn(Run(characters, ops).accounts, currency)
  {
    if ops != [] {
      var t, op := Run(characters, ops[..|ops| - 1]), ops[|ops| - 1];
      OneCurrencyOnly(characters, ops[..|ops| - 1], currency);
      RunKeepsInv(characters, ops[..|ops| - 1]);
      StepAccounts(t, op, currency);
      forall a | a in Step(t, op).accounts ensures Step(t, op).accounts[a].currency == currency {
        assert OldOrNewAccount(t.accounts, Step(t, op).accounts, currency, a);
      }
    }
  }

  /** A tenant that keeps its currency never settles across, so its currency and every
      other stay at zero. */
  lemma FixedCurrencyMatches(characters: set<Id>, ops: seq<Op>, currency: Currency)
    requires UsesCurrency(ops, currency)
    ensures ConfirmsMatch(characters, ops)
  {
    forall i | 0 <= i < |ops| ensures !SettlesAcross(Run(characters, ops[..i]), ops[i]) {
      OneCurrencyOnly(characters, ops[..i], currency);
      RunKeepsInv(characters, ops[..i]);
      if ConfirmGuards(Run(characters, ops[..i]), ops[i]) {
        SettledHasCurrency(Run(characters, ops[..i]), ops[i].exchange);
      }
    }
  }

  /** The tenant's currency setting changes between the two legs of a withdraw: the
      run leaves one currency ten short and another ten over. */
  ghost function CurrencyChangeRun(): seq<Op> {
    [OpDeposit("deposit", 1, 10, "OPN", 1, 2, 3), OpWithdraw(1, "OPN", 10, 0, 4, "withdraw"),
     OpConfirm("withdraw", 1, 10, "USD", 5, 6)]
  }

  lemma CurrencyChangeBreaksTotals()
    ensures var t := Run({1}, CurrencyChangeRun()); Total(t, Some("OPN")) == -10 && Total(t, Some("USD")) == 10
  {
    var ops := CurrencyChangeRun();
    assert ops[..2] == [ops[0], ops[1]] && ops[..2][..1] == [ops[0]] && ops[..2][..1][..0] == [];
    var t0 := Run({1}, []);
    var t1 := Step(t0, ops[0]);
    assert Run({1}, ops[..2][..1]) == t1;
    var t2 := Step(t1, ops[1]);
    assert Run({1}, ops[..2]) == t2;
    assert UsesCurrency(ops[..2], "OPN");
    FixedCurrencyMatches({1}, ops[..2], "OPN");
    EachCurrencySumsToZero({1}, ops[..2], "OPN");
    EachCurrencySumsToZero({1}, ops[..2], "USD");
    RunKeepsInv({1}, ops[..2]);
    AfterFirstLeg(t0, t1, t2);
    var t3 := Step(t2, ops[2]);
    AcrossChangesTotals(t2, ops[2], Some("OPN"));
    AcrossChangesTotals(t2, ops[2], Some("USD"));
  }

  lemma AfterFirstLeg(t0: Tables, t1: Tables, t2: Tables)
    requires t0 == Tables({1}, map[], map[], map[], map[])
    requires t1 == Step(t0, CurrencyChangeRun()[0]) && t2 == Step(t1, CurrencyChangeRun()[1])
    ensures t2.accounts == map[1 := Account(None, "OPN", -10, false), 2 := Account(Some(1), "OPN", 10, false)]
    ensures SettlesAcross(t2, CurrencyChangeRun()[2]) && WithdrawCurrency(t2, "withdraw") == Some("OPN")
    ensures "withdraw" in t2.exchanges && t2.exchanges["withdraw"] == Exchange(1, 10, Withdraw, PendingConfirm, Some(4))
  {
    var (u1, system) := GetOrCreateSystem(t0, "OPN", 1).value;
    assert system == 1 && u1.accounts == map[1 := Account(None, "OPN", 0, false)];
    assert !WalletOf(1, "OPN")(u1.accounts[1]);
    var (u2, wallet) := GetOrCreateWallet(u1, 1, "OPN", 2).value;
    assert wallet == 2;
    assert t1.accounts == map[1 := Account(None, "OPN", -10, false), 2 := Account(Some(1), "OPN", 10, false)];
    SumZero(t1.holds, HeldOn(2));
    assert WalletOf(1, "OPN")(t1.accounts[2]);
    assert FindRow(t1.accounts, WalletOf(1, "OPN")) == Some(2);
    assert t2.exchanges["withdraw"] == Exchange(1, 10, Withdraw, PendingConfirm, Some(4));
    assert "USD"[0] != "OPN"[0];
    assert FindRow(t2.accounts, SystemOf("USD")) == None;
  }

  // ── a deposit under a withdraw's id ──────────────────────────────────────

  /** The bridge sends a deposit under the id of a pending withdraw. */
  ghost function ReusedId(): Op { OpDeposit("withdraw", 1, 10, "OPN", 7, 8, 9) }

  /** It is acked, and nothing was ever credited for it. */
  lemma WithdrawIdAcksADeposit()
    ensures var ops := CurrencyChangeRun()[..2];
            var (t, r) := DoDeposit(Run({1}, ops), "withdraw", 1, 10, "OPN", 7, 8, 9);
            && r == Ok(DepositOutcome(None, 10, PendingConfirm, false)) && t == Run({1}, ops)
            && !WasCredited({1}, ops + [ReusedId()], "withdraw")
  {
    var ops := CurrencyChangeRun()[..2];
    assert ops[..1] == [ops[0]] && ops[..1][..0] == [];
    var t0 := Run({1}, []);
    var t1 := Step(t0, ops[0]);
    assert Run({1}, ops[..1]) == t1;
    AfterFirstLeg(t0, t1, Run({1}, ops));
    AckedDepositWasCreditedIff({1}, ops, ReusedId());
  }

  // ── who moves the hold of a pending withdraw ─────────────────────────────

  lemma ConfirmMovesItsHold(t: Tables, op: Op, e: ExchangeId)
    requires Inv(t) && op.OpConfirm? && e in t.exchanges && t.exchanges[e].state.PendingConfirm?
    ensures t.exchanges[e].hold.Some? && t.exchanges[e].hold.value in t.holds && t.exchanges[e].hold.value in Step(t, op).holds
    ensures var hold := t.exchanges[e].hold.value;
            Step(t, op).holds[hold].state != t.holds[hold].state <==> op.exchange == e && ConfirmGuards(t, op)
  {
    assert Paired(t.accounts, t.holds, t.exchanges[e]);
    ConfirmSettlesIff(t, op);
    if Step(t, op) != t {
      ConfirmEffect(t, op.exchange, op.character, op.amount, op.currency, op.systemId, op.id);
      assert op.exchange != e ==> Apart(t.exchanges[op.exchange], t.exchanges[e]);
      assert Paired(t.accounts, t.holds, t.exchanges[op.exchange]);
    }
  }

  lemma MoneyCommandsLeaveIt(t: Tables, op: Op, hold: Id)
    requires hold in t.holds && BacksPending(t.exchanges, hold)
    requires op.OpTransfer? || op.OpHold? || op.OpCapture? || op.OpRelease?
    ensures hold in Step(t, op).holds && Step(t, op).holds[hold] == t.holds[hold]
  {
  }

  lemma ExchangeCommandsLeaveIt(t: Tables, op: Op, hold: Id)
    requires hold in t.holds && (op.OpDeposit? || op.OpWithdraw? || op.OpReconcile?)
    ensures hold in Step(t, op).holds && Step(t, op).holds[hold] == t.holds[hold]
  {
  }

  lemma CommandsLeaveIt(t: Tables, op: Op, e: ExchangeId)
    requires Inv(t) && e in t.exchanges && t.exchanges[e].state.PendingConfirm?
    requires !op.OpConfirm? && !op.OpExpireHolds?
    ensures t.exchanges[e].hold.Some? && t.exchanges[e].hold.value in t.holds && t.exchanges[e].hold.value in Step(t, op).holds
    ensures Step(t, op).holds[t.exchanges[e].hold.value] == t.holds[t.exchanges[e].hold.value]
  {
    assert Paired(t.accounts, t.holds, t.exchanges[e]);
    var hold := t.exchanges[e].hold.value;
    if op.OpDeposit? || op.OpWithdraw? || op.OpReconcile? {
      ExchangeCommandsLeaveIt(t, op, hold);
    } else {
      MoneyCommandsLeaveIt(t, op, hold);
    }
  }

  /** In any reachable state the hold of a pending withdraw changes in a step if and only
      if the step is the withdraw's own confirm passing its guards, or expire_holds after
      the hold's expiry; no command of any character moves it. */
  lemma PendingHoldMovesIff(characters: set<Id>, ops: seq<Op>, op: Op, e: ExchangeId)
    requires var t := Run(characters, ops); e in t.exchanges && t.exchanges[e].state.PendingConfirm?
    ensures var t := Run(characters, ops);
            && t.exchanges[e].hold.Some? && t.exchanges[e].hold.value in t.holds
            && var hold := t.exchanges[e].hold.value;
            && hold in Step(t, op).holds
            && (Step(t, op).holds[hold].state != t.holds[hold].state
                <==> (op.OpConfirm? && op.exchange == e && ConfirmGuards(t, op))
                     || (op.OpExpireHolds? && Lapsed(t.holds[hold], op.now)))
  {
    var t := Run(characters, ops);
    RunKeepsInv(characters, ops);
    assert Paired(t.accounts, t.holds, t.exchanges[e]);
    if op.OpConfirm? {
      ConfirmMovesItsHold(t, op, e);
    } else if !op.OpExpireHolds? {
      CommandsLeaveIt(t, op, e);
    }
  }

  // ── reconciliation ───────────────────────────────────────────────────────

  /** Reconciliation of any reachable state freezes nothing. */
  lemma ReconcileIsQuietOnRuns(characters: set<Id>, ops: seq<Op>)
    ensures DoReconcile(Run(characters, ops)) == (Run(characters, ops), {})
    ensures forall a :: a in Run(characters, ops).accounts ==> !Run(characters, ops).accounts[a].frozen
  {
    RunKeepsInv(characters, ops);
    ReconcileFreezesNothing(Run(characters, ops));
    NothingFrozen(characters, ops);
  }

  lemma {:induction false} NothingFrozen(characters: set<Id>, ops: seq<Op>)
    ensures forall a :: a in Run(characters, ops).accounts ==> !Run(characters, ops).accounts[a].frozen
  {
    if ops != [] {
      var t, op := Run(characters, ops[..|ops| - 1]), ops[|ops| - 1];
      NothingFrozen(characters, ops[..|ops| - 1]);
      RunKeepsInv(characters, ops[..|ops| - 1]);
      var named := if op.OpDeposit? || op.OpWithdraw? || op.OpConfirm? then op.currency else "";
      StepAccounts(t, op, named);
      forall a | a in Step(t, op).accounts ensures !Step(t, op).accounts[a].frozen {
        assert OldOrNewAccount(t.accounts, Step(t, op).accounts, named, a);
      }
    }
  }

  /** On any tables at all, damaged or not: what reconciliation leaves unfrozen agrees
      with the journal, and a second run finds nothing more. */
  lemma ReconcileIsCompleteAndIdempotent(t: Tables)
    ensures var (t', frozen) := DoReconcile(t);
            && (forall a :: a in t'.accounts && !t'.accounts[a].frozen ==> t'.accounts[a].balance == Net(t'.transfers, a))
            && ((exists a :: a in t'.accounts && t'.accounts[a].owner.None? && !t'.accounts[a].frozen) ==> CrossChecked(t'.transfers, t'.exchanges))
            && DoReconcile(t') == (t', {})
  {
    var (t', frozen) := DoReconcile(t);
    forall a | a in t'.accounts ensures !Drifted(t', a) {
      assert !t'.accounts[a].frozen ==> a !in ToFreeze(t);
    }
    assert ToFreeze(t') == {};
    assert DoReconcile(t').0.accounts == t'.accounts;
  }
}
