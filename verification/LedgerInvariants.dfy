/** What every run of the ledger keeps. */
module LedgerInvariants {
  import opened Common
  import opened Sums
  import opened Ledger
  import HoldFsm

  // ── the invariant, in parts ──────────────────────────────────────────────
  // Each part speaks of the tables it needs. The explicit triggers make every
  // use of a part name the row it is about.

  type Accounts = map<Id, Account>
  type Transfers = map<Id, Transfer>
  type Holds = map<Id, Hold>
  type Exchanges = map<ExchangeId, Exchange>

  ghost predicate KeyedTransfer(accounts: Accounts, r: Transfer) {
    r.from in accounts && r.to in accounts && r.from != r.to && r.amount > 0
  }
  ghost predicate KeyedTransfers(accounts: Accounts, transfers: Transfers) {
    forall r {:trigger KeyedTransfer(accounts, transfers[r])} :: r in transfers ==> KeyedTransfer(accounts, transfers[r])
  }

  /** Holds sit on character wallets only. */
  ghost predicate KeyedHold(accounts: Accounts, h: Hold) {
    h.account in accounts && accounts[h.account].owner.Some? && h.amount > 0
  }
  ghost predicate KeyedHolds(accounts: Accounts, holds: Holds) {
    forall h {:trigger KeyedHold(accounts, holds[h])} :: h in holds ==> KeyedHold(accounts, holds[h])
  }

  /** Holds on a wallet never reserve more than the wallet has. */
  ghost predicate CoveredAccount(accounts: Accounts, holds: Holds, a: Id)
    requires a in accounts
  {
    accounts[a].owner.Some? ==> HeldSum(holds, a) <= accounts[a].balance
  }
  ghost predicate Covered(accounts: Accounts, holds: Holds) {
    forall a {:trigger CoveredAccount(accounts, holds, a)} :: a in accounts ==> CoveredAccount(accounts, holds, a)
  }

  /** Every balance is the net of the journal. */
  ghost predicate JournaledAccount(accounts: Accounts, transfers: Transfers, a: Id)
    requires a in accounts
  {
    accounts[a].balance == Net(transfers, a)
  }
  ghost predicate Journaled(accounts: Accounts, transfers: Transfers) {
    forall a {:trigger JournaledAccount(accounts, transfers, a)} ::
      a in accounts ==> JournaledAccount(accounts, transfers, a)
  }

  /** One exchange row against its hold. */
  ghost predicate Paired(accounts: Accounts, holds: Holds, e: Exchange) {
    && e.amount > 0
    && (e.direction.Deposit? ==> e.state.Done? && e.hold.None?)
    && (e.direction.Withdraw? ==>
          && e.hold.Some? && e.hold.value in holds
          && var h := holds[e.hold.value];
          && h.amount == e.amount
          && h.account in accounts && accounts[h.account].owner == Some(e.character)
          && (e.state.PendingConfirm? <==> h.state.Held?)
          && (e.state.Done? <==> h.state.Captured?)
          && (e.state.Expired? <==> h.state.Released?))
  }
  ghost predicate Lockstep(accounts: Accounts, holds: Holds, exchanges: Exchanges) {
    forall e {:trigger Paired(accounts, holds, exchanges[e])} ::
      e in exchanges ==> Paired(accounts, holds, exchanges[e])
  }

  /** No two exchanges share a hold. */
  ghost predicate Apart(x: Exchange, y: Exchange) {
    x.hold.Some? ==> x.hold != y.hold
  }
  ghost predicate HoldsApart(exchanges: Exchanges) {
    forall e, f {:trigger Apart(exchanges[e], exchanges[f])} ::
      e in exchanges && f in exchanges && e != f ==> Apart(exchanges[e], exchanges[f])
  }

  /** One transfer per (account, client uuid). */
  ghost predicate SameKey(r: Transfer, s: Transfer) {
    r.client.Some? && r.from == s.from && r.client == s.client
  }
  ghost predicate Idempotent(transfers: Transfers) {
    forall r, s {:trigger SameKey(transfers[r], transfers[s])} ::
      r in transfers && s in transfers && SameKey(transfers[r], transfers[s]) ==> r == s
  }

  /** One system account per currency, one wallet per (character, currency). */
  ghost predicate SameSlot(a: Account, b: Account) {
    a.owner == b.owner && a.currency == b.currency
  }
  ghost predicate OnePerSlot(accounts: Accounts) {
    forall a, b {:trigger SameSlot(accounts[a], accounts[b])} ::
      a in accounts && b in accounts && SameSlot(accounts[a], accounts[b]) ==> a == b
  }

  /** The money side, and the exchange side. */
  ghost predicate MoneyInv(accounts: Accounts, transfers: Transfers, holds: Holds) {
    && KeyedTransfers(accounts, transfers)
    && KeyedHolds(accounts, holds)
    && Covered(accounts, holds)
    && Journaled(accounts, transfers)
    && Idempotent(transfers)
    && OnePerSlot(accounts)
  }
  ghost predicate ExchangeInv(t: Tables) {
    && Lockstep(t.accounts, t.holds, t.exchanges)
    && HoldsApart(t.exchanges)
    && CrossChecked(t.transfers, t.exchanges)
  }
  ghost predicate Inv(t: Tables) {
    MoneyInv(t.accounts, t.transfers, t.holds) && ExchangeInv(t)
  }

  // ── adding an account ────────────────────────────────────────────────────

  /** `bigger` has every account of `accounts`, with the same owner and currency. */
  ghost predicate Keeps(accounts: Accounts, bigger: Accounts) {
    forall a :: a in accounts ==> a in bigger && SameSlot(bigger[a], accounts[a])
  }

  lemma KeysSurvive(accounts: Accounts, bigger: Accounts, transfers: Transfers, holds: Holds)
    requires Keeps(accounts, bigger)
    requires KeyedTransfers(accounts, transfers) && KeyedHolds(accounts, holds)
    ensures KeyedTransfers(bigger, transfers) && KeyedHolds(bigger, holds)
  {
    forall r | r in transfers ensures KeyedTransfer(bigger, transfers[r]) {
      assert KeyedTransfer(accounts, transfers[r]);
    }
    forall h | h in holds ensures KeyedHold(bigger, holds[h]) {
      assert KeyedHold(accounts, holds[h]);
    }
  }

  lemma LockstepSurvives(accounts: Accounts, bigger: Accounts, holds: Holds, exchanges: Exchanges)
    requires Keeps(accounts, bigger) && Lockstep(accounts, holds, exchanges)
    ensures Lockstep(bigger, holds, exchanges)
  {
    forall e | e in exchanges ensures Paired(bigger, holds, exchanges[e]) {
      assert Paired(accounts, holds, exchanges[e]);
    }
  }

  /** Nothing refers to an account that does not exist yet. */
  lemma UnusedAccount(accounts: Accounts, transfers: Transfers, holds: Holds, id: Id)
    requires id !in accounts && KeyedTransfers(accounts, transfers) && KeyedHolds(accounts, holds)
    ensures HeldSum(holds, id) == 0 && Net(transfers, id) == 0
  {
    forall r | r in transfers ensures CreditTo(id)(transfers[r]) == 0 == DebitFrom(id)(transfers[r]) {
      assert KeyedTransfer(accounts, transfers[r]);
    }
    forall h | h in holds ensures HeldOn(id)(holds[h]) == 0 {
      assert KeyedHold(accounts, holds[h]);
    }
    SumZero(transfers, CreditTo(id));
    SumZero(transfers, DebitFrom(id));
    SumZero(holds, HeldOn(id));
  }

  lemma AddAccountKeepsMoney(accounts: Accounts, transfers: Transfers, holds: Holds, id: Id, a: Account)
    requires MoneyInv(accounts, transfers, holds) && id !in accounts && a.balance == 0
    requires forall b :: b in accounts ==> !SameSlot(accounts[b], a)
    ensures MoneyInv(accounts[id := a], transfers, holds)
  {
    var bigger := accounts[id := a];
    KeysSurvive(accounts, bigger, transfers, holds);
    UnusedAccount(accounts, transfers, holds, id);
    forall b | b in bigger ensures CoveredAccount(bigger, holds, b) && JournaledAccount(bigger, transfers, b) {
      assert b != id ==> CoveredAccount(accounts, holds, b) && JournaledAccount(accounts, transfers, b);
    }
    forall b, c | b in bigger && c in bigger && SameSlot(bigger[b], bigger[c]) ensures b == c {
      if b in accounts && c in accounts {
        assert SameSlot(accounts[b], accounts[c]);
      }
    }
  }

  /** What a get-or-create hands back: the slot's account, everything else untouched. */
  ghost predicate Slotted(t: Tables, t': Tables, a: Id, blank: Account) {
    && t' == t.(accounts := t'.accounts)
    && a in t'.accounts && SameSlot(t'.accounts[a], blank)
    && (forall b :: b in t.accounts ==> b in t'.accounts && t'.accounts[b] == t.accounts[b])
    && (forall b :: b in t'.accounts && b !in t.accounts ==> b == a && t'.accounts[b] == blank)
  }

  lemma GetOrCreateKeepsInv(t: Tables, wanted: Account -> bool, blank: Account, id: Id)
    requires Inv(t) && blank.balance == 0
    requires forall b: Account {:trigger wanted(b)} :: wanted(b) <==> SameSlot(b, blank)
    requires GetOrCreate(t, wanted, blank, id).Ok?
    ensures var (t', a) := GetOrCreate(t, wanted, blank, id).value;
            Inv(t') && Slotted(t, t', a, blank)
  {
    if FindRow(t.accounts, wanted).None? {
      AddAccountKeepsMoney(t.accounts, t.transfers, t.holds, id, blank);
      LockstepSurvives(t.accounts, t.accounts[id := blank], t.holds, t.exchanges);
    }
  }

  lemma SystemKeepsInv(t: Tables, currency: Currency, id: Id)
    requires Inv(t) && GetOrCreateSystem(t, currency, id).Ok?
    ensures var (t', a) := GetOrCreateSystem(t, currency, id).value;
            Inv(t') && Slotted(t, t', a, Account(None, currency, 0, false))
  {
    GetOrCreateKeepsInv(t, SystemOf(currency), Account(None, currency, 0, false), id);
  }

  lemma WalletKeepsInv(t: Tables, character: Id, currency: Currency, id: Id)
    requires Inv(t) && GetOrCreateWallet(t, character, currency, id).Ok?
    ensures var (t', a) := GetOrCreateWallet(t, character, currency, id).value;
            Inv(t') && Slotted(t, t', a, Account(Some(character), currency, 0, false))
  {
    GetOrCreateKeepsInv(t, WalletOf(character, currency), Account(Some(character), currency, 0, false), id);
  }

  // ── posting ──────────────────────────────────────────────────────────────

  lemma HeldSumNonNegative(accounts: Accounts, holds: Holds, a: Id)
    requires KeyedHolds(accounts, holds)
    ensures HeldSum(holds, a) >= 0
  {
    forall h | h in holds ensures HeldOn(a)(holds[h]) >= 0 {
      assert KeyedHold(accounts, holds[h]);
    }
    SumNonNegative(holds, HeldOn(a));
  }

  /** The journal key of `row` is not taken. */
  ghost predicate NewKey(transfers: Transfers, row: Transfer) {
    forall r {:trigger SameKey(row, transfers[r])} :: r in transfers ==> !SameKey(row, transfers[r])
  }

  /** The source can spare the amount beside what is reserved on it. */
  ghost predicate Spare(accounts: Accounts, holds: Holds, row: Transfer)
    requires row.from in accounts
  {
    accounts[row.from].owner.Some? ==> HeldSum(holds, row.from) + row.amount <= accounts[row.from].balance
  }

  /** What a successful post does to the tables. */
  lemma PostEffect(t: Tables, id: Id, row: Transfer)
    requires KeyedTransfer(t.accounts, row) && Post(t, id, row).Ok?
    ensures var t' := Post(t, id, row).value;
            && t' == t.(accounts := t'.accounts, transfers := t.transfers[id := row])
            && t'.accounts.Keys == t.accounts.Keys && id !in t.transfers
            && (forall a :: a in t.accounts ==> t'.accounts[a] == t.accounts[a].(balance := t.accounts[a].balance
                  + (if a == row.to then row.amount else 0) - (if a == row.from then row.amount else 0)))
  {
  }

  lemma PostKeepsJournal(t: Tables, id: Id, row: Transfer)
    requires KeyedTransfer(t.accounts, row) && Post(t, id, row).Ok?
    requires Journaled(t.accounts, t.transfers) && KeyedTransfers(t.accounts, t.transfers) && Idempotent(t.transfers) && NewKey(t.transfers, row)
    ensures var t' := Post(t, id, row).value;
            Journaled(t'.accounts, t'.transfers) && KeyedTransfers(t'.accounts, t'.transfers) && Idempotent(t'.transfers)
  {
    var t' := Post(t, id, row).value;
    PostEffect(t, id, row);
    forall a | a in t'.accounts ensures JournaledAccount(t'.accounts, t'.transfers, a) {
      SumUpdate(t.transfers, CreditTo(a), id, row);
      SumUpdate(t.transfers, DebitFrom(a), id, row);
      assert JournaledAccount(t.accounts, t.transfers, a);
    }
    forall r | r in t'.transfers ensures KeyedTransfer(t'.accounts, t'.transfers[r]) {
      assert r != id ==> KeyedTransfer(t.accounts, t.transfers[r]);
    }
    forall r, s | r in t'.transfers && s in t'.transfers && SameKey(t'.transfers[r], t'.transfers[s]) ensures r == s {
      if r != id && s != id {
        assert SameKey(t.transfers[r], t.transfers[s]);
      } else if r != id {
        assert SameKey(row, t.transfers[r]);
      }
    }
  }

  lemma PostKeepsWallets(t: Tables, id: Id, row: Transfer)
    requires KeyedTransfer(t.accounts, row) && Post(t, id, row).Ok?
    requires Covered(t.accounts, t.holds) && KeyedHolds(t.accounts, t.holds) && OnePerSlot(t.accounts)
    requires Spare(t.accounts, t.holds, row)
    ensures var t' := Post(t, id, row).value;
            Covered(t'.accounts, t'.holds) && KeyedHolds(t'.accounts, t'.holds) && OnePerSlot(t'.accounts)
  {
    var t' := Post(t, id, row).value;
    PostEffect(t, id, row);
    forall a | a in t'.accounts ensures CoveredAccount(t'.accounts, t'.holds, a) {
      assert CoveredAccount(t.accounts, t.holds, a);
    }
    forall h | h in t'.holds ensures KeyedHold(t'.accounts, t'.holds[h]) {
      assert KeyedHold(t.accounts, t.holds[h]);
    }
    forall a, b | a in t'.accounts && b in t'.accounts && SameSlot(t'.accounts[a], t'.accounts[b]) ensures a == b {
      assert SameSlot(t.accounts[a], t.accounts[b]);
    }
  }

  /** Posting keeps the money side when the source can spare the amount, and then
      the balance CHECK cannot fire. */
  lemma PostKeepsMoney(t: Tables, id: Id, row: Transfer)
    requires MoneyInv(t.accounts, t.transfers, t.holds) && KeyedTransfer(t.accounts, row)
    requires Spare(t.accounts, t.holds, row) && NewKey(t.transfers, row)
    ensures Post(t, id, row) !in {Err(CheckViolated), Err(Internal)}
    ensures Post(t, id, row).Ok? ==>
              var t' := Post(t, id, row).value; MoneyInv(t'.accounts, t'.transfers, t'.holds)
  {
    HeldSumNonNegative(t.accounts, t.holds, row.from);
    HeldSumNonNegative(t.accounts, t.holds, row.to);
    assert CoveredAccount(t.accounts, t.holds, row.to);
    if Post(t, id, row).Ok? {
      PostKeepsJournal(t, id, row);
      PostKeepsWallets(t, id, row);
    }
  }

  /** Posting changes no owner, hold or exchange, and one journal leg sum. */
  lemma PostKeepsExchanges(t: Tables, id: Id, row: Transfer)
    requires KeyedTransfer(t.accounts, row) && Post(t, id, row).Ok? && Lockstep(t.accounts, t.holds, t.exchanges)
    ensures var t' := Post(t, id, row).value;
            && t'.holds == t.holds && t'.exchanges == t.exchanges
            && Lockstep(t'.accounts, t'.holds, t'.exchanges)
            && (forall kind: Kind {:trigger LegOf(kind)} ::
                  SumOf(t'.transfers, LegOf(kind)) == SumOf(t.transfers, LegOf(kind)) + (if row.kind == kind then row.amount else 0))
  {
    PostEffect(t, id, row);
    LockstepSurvives(t.accounts, Post(t, id, row).value.accounts, t.holds, t.exchanges);
    forall kind: Kind
      ensures SumOf(t.transfers[id := row], LegOf(kind)) == SumOf(t.transfers, LegOf(kind)) + (if row.kind == kind then row.amount else 0)
    {
      SumUpdate(t.transfers, LegOf(kind), id, row);
    }
  }

  // ── holds and exchanges ──────────────────────────────────────────────────

  /** Settling an active hold frees exactly its amount. */
  lemma CloseHoldKeepsMoney(accounts: Accounts, transfers: Transfers, holds: Holds, hold: Id, state: HoldFsm.HoldState)
    requires MoneyInv(accounts, transfers, holds) && hold in holds && holds[hold].state.Held? && !state.Held?
    ensures var holds' := holds[hold := holds[hold].(state := state)];
            && MoneyInv(accounts, transfers, holds')
            && KeyedHold(accounts, holds[hold])
            && Spare(accounts, holds', Transfer(holds[hold].account, 0, holds[hold].amount, TransferLeg, None))
  {
    var h := holds[hold];
    var holds' := holds[hold := h.(state := state)];
    assert KeyedHold(accounts, h) && CoveredAccount(accounts, holds, h.account);
    forall a | a in accounts ensures CoveredAccount(accounts, holds', a) {
      SumUpdate(holds, HeldOn(a), hold, h.(state := state));
      assert CoveredAccount(accounts, holds, a);
    }
    SumUpdate(holds, HeldOn(h.account), hold, h.(state := state));
    forall g | g in holds' ensures KeyedHold(accounts, holds'[g]) {
      assert KeyedHold(accounts, holds[g]);
    }
  }

  /** A new hold may take what is available. */
  lemma OpenHoldKeepsMoney(accounts: Accounts, transfers: Transfers, holds: Holds, id: Id, h: Hold)
    requires MoneyInv(accounts, transfers, holds) && id !in holds && KeyedHold(accounts, h)
    requires accounts[h.account].balance - HeldSum(holds, h.account) >= h.amount
    ensures MoneyInv(accounts, transfers, holds[id := h])
  {
    var holds' := holds[id := h];
    forall a | a in accounts ensures CoveredAccount(accounts, holds', a) {
      SumUpdate(holds, HeldOn(a), id, h);
      assert CoveredAccount(accounts, holds, a);
    }
    forall g | g in holds' ensures KeyedHold(accounts, holds'[g]) {
      assert g != id ==> KeyedHold(accounts, holds[g]);
    }
  }

  ghost predicate Foreign(exchanges: Exchanges, hold: Id) {
    forall e :: e in exchanges ==> exchanges[e].hold != Some(hold)
  }

  lemma NewHoldIsForeign(t: Tables, id: Id)
    requires ExchangeInv(t) && id !in t.holds
    ensures Foreign(t.exchanges, id)
  {
    forall e | e in t.exchanges ensures t.exchanges[e].hold != Some(id) {
      assert Paired(t.accounts, t.holds, t.exchanges[e]);
    }
  }

  /** A hold the public API may settle backs no exchange at all, settled or not. */
  lemma PublicHoldIsForeign(t: Tables, hold: Id)
    requires ExchangeInv(t) && hold in t.holds && t.holds[hold].state.Held? && !BacksPending(t.exchanges, hold)
    ensures Foreign(t.exchanges, hold)
  {
    forall e | e in t.exchanges ensures t.exchanges[e].hold != Some(hold) {
      assert Paired(t.accounts, t.holds, t.exchanges[e]);
    }
  }

  lemma ForeignHoldKeepsLockstep(accounts: Accounts, holds: Holds, exchanges: Exchanges, id: Id, h: Hold)
    requires Lockstep(accounts, holds, exchanges) && Foreign(exchanges, id)
    ensures Lockstep(accounts, holds[id := h], exchanges)
  {
    forall e | e in exchanges ensures Paired(accounts, holds[id := h], exchanges[e]) {
      assert Paired(accounts, holds, exchanges[e]);
    }
  }

  /** A new exchange row beside the old ones. */
  lemma AddExchangeKeeps(accounts: Accounts, holds: Holds, exchanges: Exchanges, id: ExchangeId, x: Exchange)
    requires Lockstep(accounts, holds, exchanges) && HoldsApart(exchanges) && id !in exchanges && Paired(accounts, holds, x)
    requires x.hold.Some? ==> Foreign(exchanges, x.hold.value)
    ensures Lockstep(accounts, holds, exchanges[id := x]) && HoldsApart(exchanges[id := x])
    ensures forall d: Direction {:trigger DoneIn(d)} ::
              SumOf(exchanges[id := x], DoneIn(d)) == SumOf(exchanges, DoneIn(d)) + DoneIn(d)(x)
  {
    var more := exchanges[id := x];
    forall e | e in more ensures Paired(accounts, holds, more[e]) {
      assert e != id ==> Paired(accounts, holds, exchanges[e]);
    }
    forall e, f | e in more && f in more && e != f ensures Apart(more[e], more[f]) {
      assert e != id && f != id ==> Apart(exchanges[e], exchanges[f]);
    }
    forall d: Direction ensures SumOf(more, DoneIn(d)) == SumOf(exchanges, DoneIn(d)) + DoneIn(d)(x) {
      SumUpdate(exchanges, DoneIn(d), id, x);
    }
  }

  /** An exchange and its hold change state together. */
  lemma SettleExchangeKeeps(accounts: Accounts, holds: Holds, exchanges: Exchanges, id: ExchangeId, h: Hold, x: Exchange)
    requires Lockstep(accounts, holds, exchanges) && HoldsApart(exchanges)
    requires id in exchanges && exchanges[id].hold.Some? && x.hold == exchanges[id].hold
    requires !exchanges[id].state.Done?
    requires Paired(accounts, holds[x.hold.value := h], x)
    ensures Lockstep(accounts, holds[x.hold.value := h], exchanges[id := x]) && HoldsApart(exchanges[id := x])
    ensures forall d: Direction {:trigger DoneIn(d)} ::
              SumOf(exchanges[id := x], DoneIn(d)) == SumOf(exchanges, DoneIn(d)) + DoneIn(d)(x)
  {
    var holds', exchanges' := holds[x.hold.value := h], exchanges[id := x];
    forall e | e in exchanges' ensures Paired(accounts, holds', exchanges'[e]) {
      if e != id {
        assert Paired(accounts, holds, exchanges[e]) && Apart(exchanges[id], exchanges[e]);
      }
    }
    forall e, f | e in exchanges' && f in exchanges' && e != f ensures Apart(exchanges'[e], exchanges'[f]) {
      assert Apart(exchanges[e], exchanges[f]);
    }
    forall d: Direction ensures SumOf(exchanges', DoneIn(d)) == SumOf(exchanges, DoneIn(d)) + DoneIn(d)(x) {
      SumUpdate(exchanges, DoneIn(d), id, x);
    }
  }

  // ── each operation ───────────────────────────────────────────────────────

  /** A post outside the exchange: user transfers and captures. */
  lemma PlainPostKeepsInv(t: Tables, id: Id, row: Transfer)
    requires Inv(t) && KeyedTransfer(t.accounts, row) && row.kind in {TransferLeg, CaptureLeg}
    requires Spare(t.accounts, t.holds, row) && NewKey(t.transfers, row)
    ensures Post(t, id, row) !in {Err(CheckViolated), Err(Internal)}
    ensures Post(t, id, row).Ok? ==> Inv(Post(t, id, row).value)
  {
    PostKeepsMoney(t, id, row);
    if Post(t, id, row).Ok? {
      PostKeepsExchanges(t, id, row);
      assert LegOf(DepositLeg) == LegOf(DepositLeg) && LegOf(WithdrawLeg) == LegOf(WithdrawLeg);
    }
  }

  lemma TransferKeepsInv(t: Tables, actor: Id, from: Id, to: Id, amount: int, client: Id, id: Id)
    requires Inv(t)
    ensures Inv(DoTransfer(t, actor, from, to, amount, client, id).0)
    ensures DoTransfer(t, actor, from, to, amount, client, id).1 !in {Err(CheckViolated), Err(Internal)}
  {
    if from != to && amount > 0 && from in t.accounts && to in t.accounts && FindRow(t.transfers, IdemRow(from, client)).None?
      && t.accounts[from].balance - HeldSum(t.holds, from) >= amount {
      var row := Transfer(from, to, amount, TransferLeg, Some(client));
      forall s | s in t.transfers ensures !SameKey(row, t.transfers[s]) {
        assert !IdemRow(from, client)(t.transfers[s]);
      }
      PlainPostKeepsInv(t, id, row);
    }
  }

  lemma HoldKeepsInv(t: Tables, actor: Id, account: Id, amount: int, expiresAt: int, id: Id)
    requires Inv(t)
    ensures Inv(DoHold(t, actor, account, amount, expiresAt, id).0)
  {
    if DoHold(t, actor, account, amount, expiresAt, id).1.Ok? {
      var h := Hold(account, amount, HoldFsm.Held, expiresAt);
      OpenHoldKeepsMoney(t.accounts, t.transfers, t.holds, id, h);
      NewHoldIsForeign(t, id);
      ForeignHoldKeepsLockstep(t.accounts, t.holds, t.exchanges, id, h);
    }
  }

  /** The public API settles a hold: money and exchanges stay intact, and the
      hold's own amount becomes spendable. */
  lemma PublicCloseKeepsInv(t: Tables, hold: Id, state: HoldFsm.HoldState)
    requires Inv(t) && hold in t.holds && t.holds[hold].state.Held? && !state.Held? && !BacksPending(t.exchanges, hold)
    ensures var h := t.holds[hold];
            var t' := t.(holds := t.holds[hold := h.(state := state)]);
            && Inv(t') && KeyedHold(t.accounts, h)
            && Spare(t'.accounts, t'.holds, Transfer(h.account, 0, h.amount, TransferLeg, None))
  {
    var h := t.holds[hold].(state := state);
    CloseHoldKeepsMoney(t.accounts, t.transfers, t.holds, hold, state);
    PublicHoldIsForeign(t, hold);
    ForeignHoldKeepsLockstep(t.accounts, t.holds, t.exchanges, hold, h);
  }

  lemma CaptureKeepsInv(t: Tables, actor: Id, hold: Id, to: Id, id: Id)
    requires Inv(t)
    ensures Inv(DoCapture(t, actor, hold, to, id).0)
    ensures DoCapture(t, actor, hold, to, id).1 !in {Err(CheckViolated), Err(Internal)}
  {
    if hold in t.holds && t.holds[hold].state.Held? && !BacksPending(t.exchanges, hold)
      && to in t.accounts && t.holds[hold].account != to {
      var h := t.holds[hold];
      PublicCloseKeepsInv(t, hold, HoldFsm.Captured);
      var settled := t.(holds := t.holds[hold := h.(state := HoldFsm.Captured)]);
      PlainPostKeepsInv(settled, id, Transfer(h.account, to, h.amount, CaptureLeg, None));
    }
  }

  lemma ReleaseKeepsInv(t: Tables, actor: Id, hold: Id)
    requires Inv(t)
    ensures Inv(DoRelease(t, actor, hold).0)
  {
    if DoRelease(t, actor, hold).1.Ok? {
      PublicCloseKeepsInv(t, hold, HoldFsm.Released);
    }
  }

  lemma DepositSettles(t: Tables, id: Id, row: Transfer, exchange: ExchangeId, character: Id)
    requires Inv(t) && KeyedTransfer(t.accounts, row) && row.kind.DepositLeg? && row.client.None?
    requires t.accounts[row.from].owner.None? && exchange !in t.exchanges
    ensures Post(t, id, row) !in {Err(CheckViolated), Err(Internal)}
    ensures Post(t, id, row).Ok? ==>
              var t' := Post(t, id, row).value;
              Inv(t'.(exchanges := t'.exchanges[exchange := Exchange(character, row.amount, Deposit, Done, None)]))
  {
    PostKeepsMoney(t, id, row);
    if Post(t, id, row).Ok? {
      var t' := Post(t, id, row).value;
      var x := Exchange(character, row.amount, Deposit, Done, None);
      PostKeepsExchanges(t, id, row);
      AddExchangeKeeps(t'.accounts, t'.holds, t'.exchanges, exchange, x);
      assert LegOf(DepositLeg) == LegOf(DepositLeg) && LegOf(WithdrawLeg) == LegOf(WithdrawLeg);
      assert DoneIn(Deposit)(x) == row.amount && DoneIn(Withdraw)(x) == 0;
    }
  }

  lemma DepositKeepsInv(t: Tables, exchange: ExchangeId, character: Id, amount: int, currency: Currency,
                        systemId: Id, walletId: Id, id: Id)
    requires Inv(t)
    ensures Inv(DoDeposit(t, exchange, character, amount, currency, systemId, walletId, id).0)
    ensures DoDeposit(t, exchange, character, amount, currency, systemId, walletId, id).1 !in {Err(CheckViolated), Err(Internal)}
  {
    if amount > 0 && exchange !in t.exchanges && GetOrCreateSystem(t, currency, systemId).Ok? {
      var (t1, system) := GetOrCreateSystem(t, currency, systemId).value;
      SystemKeepsInv(t, currency, systemId);
      if GetOrCreateWallet(t1, character, currency, walletId).Ok? {
        var (t2, wallet) := GetOrCreateWallet(t1, character, currency, walletId).value;
        WalletKeepsInv(t1, character, currency, walletId);
        assert t2.accounts[system] == t1.accounts[system];
        DepositSettles(t2, id, Transfer(system, wallet, amount, DepositLeg, None), exchange, character);
      }
    }
  }

  lemma WithdrawKeepsInv(t: Tables, character: Id, currency: Currency, amount: int, now: int, holdId: Id, exchange: ExchangeId)
    requires Inv(t)
    ensures Inv(DoWithdraw(t, character, currency, amount, now, holdId, exchange).0)
  {
    if DoWithdraw(t, character, currency, amount, now, holdId, exchange).1.Ok? {
      var wallet := FindRow(t.accounts, WalletOf(character, currency)).value;
      var h := Hold(wallet, amount, HoldFsm.Held, now + WITHDRAW_HOLD_SECS);
      var x := Exchange(character, amount, Withdraw, PendingConfirm, Some(holdId));
      var holds := t.holds[holdId := h];
      OpenHoldKeepsMoney(t.accounts, t.transfers, t.holds, holdId, h);
      NewHoldIsForeign(t, holdId);
      ForeignHoldKeepsLockstep(t.accounts, t.holds, t.exchanges, holdId, h);
      AddExchangeKeeps(t.accounts, holds, t.exchanges, exchange, x);
      assert DoneIn(Deposit)(x) == 0 && DoneIn(Withdraw)(x) == 0;
    }
  }

  lemma ConfirmSettles(t: Tables, exchange: ExchangeId, system: Id, id: Id)
    requires Inv(t) && exchange in t.exchanges
    requires t.exchanges[exchange].direction.Withdraw? && t.exchanges[exchange].state.PendingConfirm?
    requires system in t.accounts && t.accounts[system].owner.None?
    ensures var ex := t.exchanges[exchange];
            && Paired(t.accounts, t.holds, ex)
            && var h := t.holds[ex.hold.value];
            && h.account != system
            && var t2 := t.(holds := t.holds[ex.hold.value := h.(state := HoldFsm.Captured)]);
            var r := Post(t2, id, Transfer(h.account, system, h.amount, WithdrawLeg, None));
            && r !in {Err(CheckViolated), Err(Internal)}
            && (r.Ok? ==> Inv(r.value.(exchanges := r.value.exchanges[exchange := ex.(state := Done)])))
  {
    var ex := t.exchanges[exchange];
    assert Paired(t.accounts, t.holds, ex);
    var hold := ex.hold.value;
    var h := t.holds[hold];
    var h', x := h.(state := HoldFsm.Captured), ex.(state := Done);
    var t2 := t.(holds := t.holds[hold := h']);
    var row := Transfer(h.account, system, h.amount, WithdrawLeg, None);
    CloseHoldKeepsMoney(t.accounts, t.transfers, t.holds, hold, HoldFsm.Captured);
    PostKeepsMoney(t2, id, row);
    SettleExchangeKeeps(t.accounts, t.holds, t.exchanges, exchange, h', x);
    if Post(t2, id, row).Ok? {
      var t3 := Post(t2, id, row).value;
      var t2x := t2.(exchanges := t2.exchanges[exchange := x]);
      assert Post(t2x, id, row).value == t3.(exchanges := t2x.exchanges);
      PostKeepsExchanges(t2x, id, row);
      assert LegOf(DepositLeg) == LegOf(DepositLeg) && LegOf(WithdrawLeg) == LegOf(WithdrawLeg);
      assert DoneIn(Deposit)(x) == 0 && DoneIn(Withdraw)(x) == row.amount;
    }
  }

  lemma ConfirmKeepsInv(t: Tables, exchange: ExchangeId, character: Id, amount: int, currency: Currency, systemId: Id, id: Id)
    requires Inv(t)
    ensures Inv(DoWithdrawConfirm(t, exchange, character, amount, currency, systemId, id).0)
    ensures DoWithdrawConfirm(t, exchange, character, amount, currency, systemId, id).1 !in {Err(CheckViolated), Err(Internal)}
  {
    if exchange in t.exchanges {
      assert Paired(t.accounts, t.holds, t.exchanges[exchange]);
      if t.exchanges[exchange].direction.Withdraw? && t.exchanges[exchange].state.PendingConfirm?
        && GetOrCreateSystem(t, currency, systemId).Ok? {
        var (t1, system) := GetOrCreateSystem(t, currency, systemId).value;
        SystemKeepsInv(t, currency, systemId);
        ConfirmSettles(t1, exchange, system, id);
      }
    }
  }

  lemma ExpireKeepsMoney(t: Tables, now: int)
    requires Inv(t)
    ensures var t' := DoExpireHolds(t, now); MoneyInv(t'.accounts, t'.transfers, t'.holds)
  {
    var t' := DoExpireHolds(t, now);
    forall h | h in t.holds ensures KeyedHold(t'.accounts, t'.holds[h]) {
      assert KeyedHold(t.accounts, t.holds[h]);
    }
    forall a | a in t'.accounts ensures CoveredAccount(t'.accounts, t'.holds, a) {
      forall h | h in t.holds ensures HeldOn(a)(t'.holds[h]) <= HeldOn(a)(t.holds[h]) {
        assert KeyedHold(t.accounts, t.holds[h]);
      }
      SumMonotone(t'.holds, t.holds, HeldOn(a), HeldOn(a));
      assert CoveredAccount(t.accounts, t.holds, a);
    }
  }

  lemma ExpireKeepsExchanges(t: Tables, now: int)
    requires Inv(t)
    ensures ExchangeInv(DoExpireHolds(t, now))
  {
    var t' := DoExpireHolds(t, now);
    forall e | e in t'.exchanges ensures Paired(t'.accounts, t'.holds, t'.exchanges[e]) {
      assert Paired(t.accounts, t.holds, t.exchanges[e]);
      assert t.exchanges[e].hold.Some? ==> KeyedHold(t.accounts, t.holds[t.exchanges[e].hold.value]);
    }
    forall e, f | e in t'.exchanges && f in t'.exchanges && e != f ensures Apart(t'.exchanges[e], t'.exchanges[f]) {
      assert Apart(t.exchanges[e], t.exchanges[f]);
    }
    SumEqual(t'.exchanges, t.exchanges, DoneIn(Deposit), DoneIn(Deposit));
    SumEqual(t'.exchanges, t.exchanges, DoneIn(Withdraw), DoneIn(Withdraw));
  }

  lemma ExpireKeepsInv(t: Tables, now: int)
    requires Inv(t)
    ensures Inv(DoExpireHolds(t, now))
  {
    ExpireKeepsMoney(t, now);
    ExpireKeepsExchanges(t, now);
  }

  /** In an intact state reconciliation finds nothing to freeze. */
  lemma ReconcileFreezesNothing(t: Tables)
    requires Inv(t)
    ensures DoReconcile(t) == (t, {})
  {
    forall a | a in t.accounts ensures a !in ToFreeze(t) {
      assert JournaledAccount(t.accounts, t.transfers, a);
    }
    assert ToFreeze(t) == {};
    var t' := DoReconcile(t).0;
    assert t'.accounts == t.accounts;
  }

  lemma StepKeepsInv(t: Tables, op: Op)
    requires Inv(t)
    ensures Inv(Step(t, op))
  {
    match op
    case OpTransfer(actor, from, to, amount, client, id) => TransferKeepsInv(t, actor, from, to, amount, client, id);
    case OpHold(actor, account, amount, expiresAt, id) => HoldKeepsInv(t, actor, account, amount, expiresAt, id);
    case OpCapture(actor, hold, to, id) => CaptureKeepsInv(t, actor, hold, to, id);
    case OpRelease(actor, hold) => ReleaseKeepsInv(t, actor, hold);
    case OpDeposit(exchange, character, amount, currency, systemId, walletId, id) =>
      DepositKeepsInv(t, exchange, character, amount, currency, systemId, walletId, id);
    case OpWithdraw(character, currency, amount, now, holdId, exchange) =>
      WithdrawKeepsInv(t, character, currency, amount, now, holdId, exchange);
    case OpConfirm(exchange, character, amount, currency, systemId, id) =>
      ConfirmKeepsInv(t, exchange, character, amount, currency, systemId, id);
    case OpExpireHolds(now) => ExpireKeepsInv(t, now);
    case OpReconcile => ReconcileFreezesNothing(t);
  }

  // ── whole runs ───────────────────────────────────────────────────────────

  /** Every state that any interleaving of committed operations reaches from empty
      tables satisfies the invariant. */
  lemma {:induction false} RunKeepsInv(characters: set<Id>, ops: seq<Op>)
    ensures Inv(Run(characters, ops))
  {
    if ops != [] {
      RunKeepsInv(characters, ops[..|ops| - 1]);
      StepKeepsInv(Run(characters, ops[..|ops| - 1]), ops[|ops| - 1]);
    }
  }
}
