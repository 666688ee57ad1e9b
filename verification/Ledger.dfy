/** The hold state machine: pure, two states are terminal. */
module HoldFsm {
  import opened Common

  datatype HoldState = Held | Captured | Released
  datatype Action = Capture | Release

  function Apply(state: HoldState, action: Action): Option<HoldState> {
    match (state, action)
    case (Held, Capture) => Some(Captured)
    case (Held, Release) => Some(Released)
    case _ => None
  }
}

/** The ledger and the framework exchange as transactions over four tables.
    Each operation is one `world_tx`: it either commits a whole new `Tables`
    value or leaves the tables as they were and reports why. Generated ids and
    the clock are parameters; an id that is already a key is refused by the
    PRIMARY KEY, so nothing has to be assumed about them. */
module Ledger {
  import opened Common
  import opened Sums
  import HoldFsm

  type Id = nat
  type Currency = string
  type ExchangeId = string

  const WITHDRAW_HOLD_SECS: int := 60 * 60

  /** `owner` is None for the tenant's system account. */
  datatype Account = Account(owner: Option<Id>, currency: Currency, balance: int, frozen: bool)
  datatype Kind = TransferLeg | CaptureLeg | DepositLeg | WithdrawLeg
  datatype Transfer = Transfer(from: Id, to: Id, amount: int, kind: Kind, client: Option<Id>)
  datatype Hold = Hold(account: Id, amount: int, state: HoldFsm.HoldState, expiresAt: int)
  datatype Direction = Deposit | Withdraw
  datatype ExchangeState = Done | PendingConfirm | Expired
  datatype Exchange = Exchange(character: Id, amount: int, direction: Direction, state: ExchangeState, hold: Option<Id>)

  datatype Tables = Tables(
    characters: set<Id>,
    accounts: map<Id, Account>,
    transfers: map<Id, Transfer>,
    holds: map<Id, Hold>,
    exchanges: map<ExchangeId, Exchange>)

  datatype TransferOutcome = TransferOutcome(transferId: Id, fromBalance: int, toOwner: Option<Id>, amount: int, isNew: bool)
  datatype CaptureOutcome = CaptureOutcome(transferId: Id, toOwner: Option<Id>, amount: int)
  datatype DepositOutcome = DepositOutcome(credited: Option<Id>, amount: int, state: ExchangeState, isNew: bool)
  datatype ConfirmOutcome = ConfirmOutcome(state: ExchangeState, amount: int)

  // ── sums the SQL computes ─────────────────────────────────────────────────

  function HeldOn(account: Id): Hold -> int {
    (h: Hold) => if h.account == account && h.state.Held? then h.amount else 0
  }
  function CreditTo(account: Id): Transfer -> int {
    (r: Transfer) => if r.to == account then r.amount else 0
  }
  function DebitFrom(account: Id): Transfer -> int {
    (r: Transfer) => if r.from == account then r.amount else 0
  }
  function LegOf(kind: Kind): Transfer -> int {
    (r: Transfer) => if r.kind == kind then r.amount else 0
  }
  function DoneIn(direction: Direction): Exchange -> int {
    (e: Exchange) => if e.direction == direction && e.state.Done? then e.amount else 0
  }
  /** Balances of one currency, or of all of them. */
  function BalanceIn(scope: Option<Currency>): Account -> int {
    (a: Account) => if scope.None? || a.currency == scope.value then a.balance else 0
  }

  /** Reserved on `account`: the active holds, excluded from what may be spent. */
  ghost function HeldSum(holds: map<Id, Hold>, account: Id): int {
    SumOf(holds, HeldOn(account))
  }

  /** What the journal says the balance of `account` should be. */
  ghost function Net(transfers: map<Id, Transfer>, account: Id): int {
    SumOf(transfers, CreditTo(account)) - SumOf(transfers, DebitFrom(account))
  }

  // ── rows looked up by something other than their key ─────────────────────

  predicate IsIdemRow(r: Transfer, from: Id, client: Id) {
    r.from == from && r.client == Some(client)
  }
  predicate IsSystem(a: Account, currency: Currency) {
    a.owner.None? && a.currency == currency
  }
  predicate IsWallet(a: Account, character: Id, currency: Currency) {
    a.owner == Some(character) && a.currency == currency
  }

  ghost function FindRow<K(!new), V>(rows: map<K, V>, wanted: V -> bool): (found: Option<K>)
    ensures found.None? ==> forall k :: k in rows ==> !wanted(rows[k])
    ensures found.Some? ==> found.value in rows && wanted(rows[found.value])
  {
    if exists k :: k in rows && wanted(rows[k]) then
      var k :| k in rows && wanted(rows[k]);
      Some(k)
    else None
  }

  function IdemRow(from: Id, client: Id): Transfer -> bool { (r: Transfer) => IsIdemRow(r, from, client) }
  function SystemOf(currency: Currency): Account -> bool { (a: Account) => IsSystem(a, currency) }
  function WalletOf(character: Id, currency: Currency): Account -> bool {
    (a: Account) => IsWallet(a, character, currency)
  }

  /** A hold behind an unsettled withdraw is hidden from the public API. */
  ghost predicate BacksPending(exchanges: map<ExchangeId, Exchange>, hold: Id) {
    exists e :: e in exchanges && exchanges[e].hold == Some(hold) && exchanges[e].state.PendingConfirm?
  }

  // ── moving money ─────────────────────────────────────────────────────────

  /** One `UPDATE accounts SET balance = ..`: the column is a bigint and the row
      must keep its CHECK. */
  function SetBalance(a: Account, balance: int): Result<Account> {
    if balance < I64_MIN || balance > I64_MAX then Err(OutOfRange)
    else if balance < 0 && a.owner.Some? then Err(CheckViolated)
    else Ok(a.(balance := balance))
  }

  /** Debit `row.from`, credit `row.to`, append the journal row. */
  function Post(t: Tables, id: Id, row: Transfer): Result<Tables>
    requires row.from in t.accounts && row.to in t.accounts
  {
    match SetBalance(t.accounts[row.from], t.accounts[row.from].balance - row.amount)
    case Err(e) => Err(e)
    case Ok(debited) =>
      var accounts := t.accounts[row.from := debited];
      match SetBalance(accounts[row.to], accounts[row.to].balance + row.amount)
      case Err(e) => Err(e)
      case Ok(credited) =>
        if id in t.transfers then Err(DuplicateKey)
        else Ok(t.(accounts := accounts[row.to := credited], transfers := t.transfers[id := row]))
  }

  // ── ledger/store.rs ──────────────────────────────────────────────────────

  ghost function DoTransfer(t: Tables, actor: Id, from: Id, to: Id, amount: int, client: Id, id: Id)
    : (Tables, Result<TransferOutcome>)
  {
    if from == to || amount <= 0 then (t, Err(Invalid))
    else
      var existing := FindRow(t.transfers, IdemRow(from, client));
      if existing.Some? && from in t.accounts && t.accounts[from].owner == Some(actor) then
        (t, Ok(TransferOutcome(existing.value, t.accounts[from].balance, None, amount, false)))
      else if from !in t.accounts || to !in t.accounts then (t, Err(NotFound))
      else
        var source, target := t.accounts[from], t.accounts[to];
        if source.owner != Some(actor) then (t, Err(Forbidden))
        else if source.frozen then (t, Err(Conflict))
        else if source.currency != target.currency then (t, Err(Invalid))
        else if source.balance - HeldSum(t.holds, from) < amount then (t, Err(Conflict))
        else
          match Post(t, id, Transfer(from, to, amount, TransferLeg, Some(client)))
          case Err(e) => (t, Err(e))
          case Ok(t') => (t', Ok(TransferOutcome(id, source.balance - amount, target.owner, amount, true)))
  }

  ghost function DoHold(t: Tables, actor: Id, account: Id, amount: int, expiresAt: int, id: Id): (Tables, Result<Id>) {
    if amount <= 0 then (t, Err(Invalid))
    else if account !in t.accounts then (t, Err(NotFound))
    else if t.accounts[account].owner != Some(actor) then (t, Err(Forbidden))
    else if t.accounts[account].frozen then (t, Err(Conflict))
    else if t.accounts[account].balance - HeldSum(t.holds, account) < amount then (t, Err(Conflict))
    else if id in t.holds then (t, Err(DuplicateKey))
    else (t.(holds := t.holds[id := Hold(account, amount, HoldFsm.Held, expiresAt)]), Ok(id))
  }

  ghost function DoCapture(t: Tables, actor: Id, hold: Id, to: Id, id: Id): (Tables, Result<CaptureOutcome>) {
    if hold !in t.holds || t.holds[hold].account !in t.accounts || BacksPending(t.exchanges, hold) then
      (t, Err(NotFound))
    else
      var h := t.holds[hold];
      var source := t.accounts[h.account];
      if source.owner != Some(actor) then (t, Err(Forbidden))
      else
        var next := HoldFsm.Apply(h.state, HoldFsm.Capture);
        if next.None? then (t, Err(Conflict))
        else if h.account == to then (t, Err(Invalid))
        else if to !in t.accounts then (t, Err(NotFound))
        else if source.frozen then (t, Err(Conflict))
        else if source.currency != t.accounts[to].currency then (t, Err(Invalid))
        else
          var settled := t.(holds := t.holds[hold := h.(state := next.value)]);
          match Post(settled, id, Transfer(h.account, to, h.amount, CaptureLeg, None))
          case Err(e) => (t, Err(e))
          case Ok(t') => (t', Ok(CaptureOutcome(id, t.accounts[to].owner, h.amount)))
  }

  ghost function DoRelease(t: Tables, actor: Id, hold: Id): (Tables, Result<()>) {
    if hold !in t.holds || t.holds[hold].account !in t.accounts || BacksPending(t.exchanges, hold) then
      (t, Err(NotFound))
    else
      var h := t.holds[hold];
      if t.accounts[h.account].owner != Some(actor) then (t, Err(Forbidden))
      else
        var next := HoldFsm.Apply(h.state, HoldFsm.Release);
        if next.None? then (t, Err(Conflict))
        else (t.(holds := t.holds[hold := h.(state := next.value)]), Ok(()))
  }

  predicate Lapsed(h: Hold, now: int) {
    h.state.Held? && h.expiresAt < now
  }

  predicate BehindLapsed(x: Exchange, holds: map<Id, Hold>, now: int) {
    x.state.PendingConfirm? && x.hold.Some? && x.hold.value in holds && Lapsed(holds[x.hold.value], now)
  }
  function ExpiredExchanges(exchanges: map<ExchangeId, Exchange>, holds: map<Id, Hold>, now: int): map<ExchangeId, Exchange> {
    map e | e in exchanges :: if BehindLapsed(exchanges[e], holds, now) then exchanges[e].(state := Expired) else exchanges[e]
  }
  function ReleasedHolds(holds: map<Id, Hold>, accounts: map<Id, Account>, now: int): map<Id, Hold> {
    map h | h in holds ::
      if Lapsed(holds[h], now) && holds[h].account in accounts then holds[h].(state := HoldFsm.Released) else holds[h]
  }

  /** The janitor: expire the exchanges behind lapsed holds, then release the holds. */
  function DoExpireHolds(t: Tables, now: int): Tables {
    t.(exchanges := ExpiredExchanges(t.exchanges, t.holds, now), holds := ReleasedHolds(t.holds, t.accounts, now))
  }

  /** Accounts the balance recompute freezes. */
  ghost predicate Drifted(t: Tables, a: Id) {
    a in t.accounts && !t.accounts[a].frozen && t.accounts[a].balance != Net(t.transfers, a)
  }

  /** Done exchanges against the matching journal legs, in both directions. */
  ghost predicate CrossChecked(transfers: map<Id, Transfer>, exchanges: map<ExchangeId, Exchange>) {
    && SumOf(exchanges, DoneIn(Deposit)) == SumOf(transfers, LegOf(DepositLeg))
    && SumOf(exchanges, DoneIn(Withdraw)) == SumOf(transfers, LegOf(WithdrawLeg))
  }

  /** Accounts one nightly reconciliation freezes. */
  ghost function ToFreeze(t: Tables): set<Id> {
    set a | a in t.accounts && (Drifted(t, a) ||
      (t.accounts[a].owner.None? && !t.accounts[a].frozen && !CrossChecked(t.transfers, t.exchanges)))
  }

  function Freeze(accounts: map<Id, Account>, bad: set<Id>): map<Id, Account> {
    map a | a in accounts :: if a in bad then accounts[a].(frozen := true) else accounts[a]
  }

  ghost function DoReconcile(t: Tables): (Tables, set<Id>) {
    var bad := ToFreeze(t);
    (t.(accounts := Freeze(t.accounts, bad)), bad)
  }

  // ── ledger/exchange.rs ───────────────────────────────────────────────────

  ghost function GetOrCreate(t: Tables, wanted: Account -> bool, blank: Account, id: Id): Result<(Tables, Id)> {
    var found := FindRow(t.accounts, wanted);
    if found.Some? then Ok((t, found.value))
    else if id in t.accounts then Err(DuplicateKey)
    else Ok((t.(accounts := t.accounts[id := blank]), id))
  }

  ghost function GetOrCreateSystem(t: Tables, currency: Currency, id: Id): Result<(Tables, Id)> {
    GetOrCreate(t, SystemOf(currency), Account(None, currency, 0, false), id)
  }

  ghost function GetOrCreateWallet(t: Tables, character: Id, currency: Currency, id: Id): Result<(Tables, Id)> {
    GetOrCreate(t, WalletOf(character, currency), Account(Some(character), currency, 0, false), id)
  }

  ghost function DoDeposit(t: Tables, exchange: ExchangeId, character: Id, amount: int, currency: Currency,
                           systemId: Id, walletId: Id, id: Id): (Tables, Result<DepositOutcome>)
  {
    if amount <= 0 then (t, Err(Invalid))
    else if exchange in t.exchanges then
      var stored := t.exchanges[exchange];
      if stored.character != character || stored.amount != amount then (t, Err(Invalid))
      else (t, Ok(DepositOutcome(None, stored.amount, stored.state, false)))
    else if character !in t.characters then (t, Err(NotFound))
    else
      match GetOrCreateSystem(t, currency, systemId)
      case Err(e) => (t, Err(e))
      case Ok((t1, system)) =>
        match GetOrCreateWallet(t1, character, currency, walletId)
        case Err(e) => (t, Err(e))
        case Ok((t2, wallet)) =>
          if t2.accounts[system].frozen then (t, Err(Conflict))
          else
            match Post(t2, id, Transfer(system, wallet, amount, DepositLeg, None))
            case Err(e) => (t, Err(e))
            case Ok(t3) =>
              (t3.(exchanges := t3.exchanges[exchange := Exchange(character, amount, Deposit, Done, None)]),
               Ok(DepositOutcome(Some(character), amount, Done, true)))
  }

  ghost function DoWithdraw(t: Tables, character: Id, currency: Currency, amount: int, now: int,
                            holdId: Id, exchange: ExchangeId): (Tables, Result<ExchangeId>)
  {
    if amount <= 0 then (t, Err(Invalid))
    else
      var found := FindRow(t.accounts, WalletOf(character, currency));
      if found.None? then (t, Err(Conflict))
      else
        var wallet := found.value;
        if t.accounts[wallet].frozen then (t, Err(Conflict))
        else if t.accounts[wallet].balance - HeldSum(t.holds, wallet) < amount then (t, Err(Conflict))
        else if holdId in t.holds || exchange in t.exchanges then (t, Err(DuplicateKey))
        else
          (t.(holds := t.holds[holdId := Hold(wallet, amount, HoldFsm.Held, now + WITHDRAW_HOLD_SECS)],
              exchanges := t.exchanges[exchange := Exchange(character, amount, Withdraw, PendingConfirm, Some(holdId))]),
           Ok(exchange))
  }

  ghost function DoWithdrawConfirm(t: Tables, exchange: ExchangeId, character: Id, amount: int, currency: Currency,
                                   systemId: Id, id: Id): (Tables, Result<ConfirmOutcome>)
  {
    if exchange !in t.exchanges || t.exchanges[exchange].direction != Withdraw then (t, Err(NotFound))
    else
      var ex := t.exchanges[exchange];
      if ex.character != character || ex.amount != amount then (t, Err(Invalid))
      else if ex.state.Done? then (t, Ok(ConfirmOutcome(Done, ex.amount)))
      else if ex.state.Expired? then (t, Err(Conflict))
      else if ex.hold.None? then (t, Err(Internal))
      else
        match GetOrCreateSystem(t, currency, systemId)
        case Err(e) => (t, Err(e))
        case Ok((t1, system)) =>
          var hold := ex.hold.value;
          if hold !in t1.holds then (t, Err(Internal))
          else
            var h := t1.holds[hold];
            var next := HoldFsm.Apply(h.state, HoldFsm.Capture);
            if next.None? then (t, Err(Conflict))
            else if h.account !in t1.accounts || h.account == system then (t, Err(Internal))
            else if t1.accounts[h.account].frozen || t1.accounts[system].frozen then (t, Err(Conflict))
            else
              var t2 := t1.(holds := t1.holds[hold := h.(state := next.value)]);
              match Post(t2, id, Transfer(h.account, system, h.amount, WithdrawLeg, None))
              case Err(e) => (t, Err(e))
              case Ok(t3) =>
                (t3.(exchanges := t3.exchanges[exchange := ex.(state := Done)]), Ok(ConfirmOutcome(Done, ex.amount)))
  }

  // ── runs ─────────────────────────────────────────────────────────────────

  datatype Op =
    | OpTransfer(actor: Id, from: Id, to: Id, amount: int, client: Id, id: Id)
    | OpHold(actor: Id, account: Id, amount: int, expiresAt: int, id: Id)
    | OpCapture(actor: Id, hold: Id, to: Id, id: Id)
    | OpRelease(actor: Id, hold: Id)
    | OpDeposit(exchange: ExchangeId, character: Id, amount: int, currency: Currency, systemId: Id, walletId: Id, id: Id)
    | OpWithdraw(character: Id, currency: Currency, amount: int, now: int, holdId: Id, exchange: ExchangeId)
    | OpConfirm(exchange: ExchangeId, character: Id, amount: int, currency: Currency, systemId: Id, id: Id)
    | OpExpireHolds(now: int)
    | OpReconcile

  ghost function Step(t: Tables, op: Op): Tables {
    match op
    case OpTransfer(actor, from, to, amount, client, id) => DoTransfer(t, actor, from, to, amount, client, id).0
    case OpHold(actor, account, amount, expiresAt, id) => DoHold(t, actor, account, amount, expiresAt, id).0
    case OpCapture(actor, hold, to, id) => DoCapture(t, actor, hold, to, id).0
    case OpRelease(actor, hold) => DoRelease(t, actor, hold).0
    case OpDeposit(exchange, character, amount, currency, systemId, walletId, id) =>
      DoDeposit(t, exchange, character, amount, currency, systemId, walletId, id).0
    case OpWithdraw(character, currency, amount, now, holdId, exchange) =>
      DoWithdraw(t, character, currency, amount, now, holdId, exchange).0
    case OpConfirm(exchange, character, amount, currency, systemId, id) =>
      DoWithdrawConfirm(t, exchange, character, amount, currency, systemId, id).0
    case OpExpireHolds(now) => DoExpireHolds(t, now)
    case OpReconcile => DoReconcile(t).0
  }

  /** Empty tables, `ops` in the order their transactions committed. */
  ghost function Run(characters: set<Id>, ops: seq<Op>): Tables {
    if ops == [] then Tables(characters, map[], map[], map[], map[])
    else Step(Run(characters, ops[..|ops| - 1]), ops[|ops| - 1])
  }
}
