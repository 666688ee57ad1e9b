/** Table scans: what a `SELECT .. WHERE` and a `SELECT SUM(..)` compute. */
module Query {
  import opened Common
  import opened Sums

  /** The key of some row that satisfies `wanted`, if there is one. */
  method Find<K(==), V>(rows: map<K, V>, wanted: V -> bool) returns (found: Option<K>)
    ensures found.Some? ==> found.value in rows && wanted(rows[found.value])
    ensures found.None? ==> forall k :: k in rows ==> !wanted(rows[k])
  {
    var todo := rows.Keys;
    while todo != {}
      invariant todo <= rows.Keys
      invariant forall k :: k in rows && k !in todo ==> !wanted(rows[k])
      decreases |todo|
    {
      var k :| k in todo;
      if wanted(rows[k]) {
        return Some(k);
      }
      todo := todo - {k};
    }
    return None;
  }

  method Total<K(==), V>(rows: map<K, V>, f: V -> int) returns (total: int)
    ensures total == SumOf(rows, f)
  {
    var todo := rows;
    total := 0;
    while todo != map[]
      invariant todo.Keys <= rows.Keys
      invariant total + SumOf(todo, f) == SumOf(rows, f)
      decreases |todo|
    {
      var k :| k in todo;
      SumSplit(todo, f, k);
      total := total + f(todo[k]);
      todo := todo - {k};
    }
  }

  ghost function Matching<K, V>(rows: map<K, V>, wanted: (K, V) -> bool): set<K> {
    set k | k in rows && wanted(k, rows[k])
  }

  /** `SELECT count(*) .. WHERE`. */
  method Count<K(==), V>(rows: map<K, V>, wanted: (K, V) -> bool) returns (n: nat)
    ensures n == |Matching(rows, wanted)|
  {
    ghost var all := Matching(rows, wanted);
    var todo := rows.Keys;
    n := 0;
    while todo != {}
      invariant todo <= rows.Keys
      invariant n == |all - todo|
      decreases |todo|
    {
      var k :| k in todo;
      assert all - (todo - {k}) == all - todo + (if k in all then {k} else {});
      if wanted(k, rows[k]) {
        n := n + 1;
      }
      todo := todo - {k};
    }
    assert all - {} == all;
  }
}

/** The ledger as the store runs it: statements change a transaction's copy of the
    tables, and only the commit at the end of a method makes them visible. */
module LedgerStore {
  import opened Common
  import opened Sums
  import opened Ledger
  import opened LedgerInvariants
  import HoldFsm
  import Query

  class Store {
    const characters: set<Id>
    var accounts: map<Id, Account>
    var transfers: map<Id, Transfer>
    var holds: map<Id, Hold>
    var exchanges: map<ExchangeId, Exchange>

    ghost function State(): Tables
      reads this
    {
      Tables(characters, accounts, transfers, holds, exchanges)
    }

    ghost predicate Valid()
      reads this
    {
      Inv(State())
    }

    constructor (characters: set<Id>)
      ensures Valid() && State() == Run(characters, [])
    {
      this.characters := characters;
      accounts, transfers, holds, exchanges := map[], map[], map[], map[];
      new;
      RunKeepsInv(characters, []);
    }

    /** Makes a transaction's work visible. */
    method Commit(tx: Tables)
      requires tx.characters == characters
      modifies this
      ensures State() == tx
    {
      accounts, transfers, holds, exchanges := tx.accounts, tx.transfers, tx.holds, tx.exchanges;
    }

    /** Both balance updates and the journal insert of one transfer row. */
    method PostRow(tx: Tables, id: Id, row: Transfer) returns (r: Result<Tables>)
      requires row.from in tx.accounts && row.to in tx.accounts
      ensures r == Post(tx, id, row)
    {
      var rows := tx.accounts;
      var source := SetBalance(rows[row.from], rows[row.from].balance - row.amount);
      if source.Err? { return Err(source.fail); }
      rows := rows[row.from := source.value];
      var target := SetBalance(rows[row.to], rows[row.to].balance + row.amount);
      if target.Err? { return Err(target.fail); }
      rows := rows[row.to := target.value];
      if id in tx.transfers { return Err(DuplicateKey); }
      return Ok(tx.(accounts := rows, transfers := tx.transfers[id := row]));
    }

    method DoTransfer(actor: Id, from: Id, to: Id, amount: int, client: Id, id: Id) returns (r: Result<TransferOutcome>)
      requires Valid()
      modifies this
      ensures Valid()
      ensures (State(), r) == Ledger.DoTransfer(old(State()), actor, from, to, amount, client, id)
    {
      TransferKeepsInv(State(), actor, from, to, amount, client, id);
      if from == to || amount <= 0 { return Err(Invalid); }
      var existing := Query.Find(transfers, IdemRow(from, client));
      if existing.Some? && from in accounts && accounts[from].owner == Some(actor) {
        SameIdemRow(transfers, from, client, existing.value);
        return Ok(TransferOutcome(existing.value, accounts[from].balance, None, amount, false));
      }
      if from !in accounts || to !in accounts { return Err(NotFound); }
      var source, target := accounts[from], accounts[to];
      if source.owner != Some(actor) { return Err(Forbidden); }
      if source.frozen { return Err(Conflict); }
      if source.currency != target.currency { return Err(Invalid); }
      var held := Query.Total(holds, HeldOn(from));
      if source.balance - held < amount { return Err(Conflict); }
      var tx := Tables(characters, accounts, transfers, holds, exchanges);
      var posted := PostRow(tx, id, Transfer(from, to, amount, TransferLeg, Some(client)));
      if posted.Err? { return Err(posted.fail); }
      Commit(posted.value);
      return Ok(TransferOutcome(id, source.balance - amount, target.owner, amount, true));
    }

    method DoHold(actor: Id, account: Id, amount: int, expiresAt: int, id: Id) returns (r: Result<Id>)
      requires Valid()
      modifies this
      ensures Valid()
      ensures (State(), r) == Ledger.DoHold(old(State()), actor, account, amount, expiresAt, id)
    {
      HoldKeepsInv(State(), actor, account, amount, expiresAt, id);
      if amount <= 0 { return Err(Invalid); }
      if account !in accounts { return Err(NotFound); }
      if accounts[account].owner != Some(actor) { return Err(Forbidden); }
      if accounts[account].frozen { return Err(Conflict); }
      var held := Query.Total(holds, HeldOn(account));
      if accounts[account].balance - held < amount { return Err(Conflict); }
      if id in holds { return Err(DuplicateKey); }
      holds := holds[id := Hold(account, amount, HoldFsm.Held, expiresAt)];
      return Ok(id);
    }

    /** The `NOT EXISTS (.. e.state = 'pending_confirm')` of capture and release. */
    method IsPublic(hold: Id) returns (public: bool)
      ensures public <==> !Ledger.BacksPending(exchanges, hold)
    {
      var backing := Query.Find(exchanges, (e: Exchange) => e.hold == Some(hold) && e.state.PendingConfirm?);
      return backing.None?;
    }

    method DoCapture(actor: Id, hold: Id, to: Id, id: Id) returns (r: Result<CaptureOutcome>)
      requires Valid()
      modifies this
      ensures Valid()
      ensures (State(), r) == Ledger.DoCapture(old(State()), actor, hold, to, id)
    {
      CaptureKeepsInv(State(), actor, hold, to, id);
      var public := IsPublic(hold);
      if hold !in holds || holds[hold].account !in accounts || !public { return Err(NotFound); }
      var h := holds[hold];
      var source := accounts[h.account];
      if source.owner != Some(actor) { return Err(Forbidden); }
      var next := HoldFsm.Apply(h.state, HoldFsm.Capture);
      if next.None? { return Err(Conflict); }
      if h.account == to { return Err(Invalid); }
      if to !in accounts { return Err(NotFound); }
      if source.frozen { return Err(Conflict); }
      if source.currency != accounts[to].currency { return Err(Invalid); }
      var tx := Tables(characters, accounts, transfers, holds, exchanges);
      tx := tx.(holds := tx.holds[hold := h.(state := next.value)]);
      var owner := accounts[to].owner;
      var posted := PostRow(tx, id, Transfer(h.account, to, h.amount, CaptureLeg, None));
      if posted.Err? { return Err(posted.fail); }
      Commit(posted.value);
      return Ok(CaptureOutcome(id, owner, h.amount));
    }

    method DoRelease(actor: Id, hold: Id) returns (r: Result<()>)
      requires Valid()
      modifies this
      ensures Valid()
      ensures (State(), r) == Ledger.DoRelease(old(State()), actor, hold)
    {
      ReleaseKeepsInv(State(), actor, hold);
      var public := IsPublic(hold);
      if hold !in holds || holds[hold].account !in accounts || !public { return Err(NotFound); }
      var h := holds[hold];
      if accounts[h.account].owner != Some(actor) { return Err(Forbidden); }
      var next := HoldFsm.Apply(h.state, HoldFsm.Release);
      if next.None? { return Err(Conflict); }
      holds := holds[hold := h.(state := next.value)];
      return Ok(());
    }

    /** `INSERT .. ON CONFLICT DO UPDATE .. RETURNING id` on an account slot. */
    method GetOrCreateAccount(tx: Tables, owner: Option<Id>, currency: Currency, id: Id) returns (r: Result<(Tables, Id)>)
      requires OnePerSlot(tx.accounts)
      ensures owner.None? ==> r == GetOrCreateSystem(tx, currency, id)
      ensures owner.Some? ==> r == GetOrCreateWallet(tx, owner.value, currency, id)
    {
      var blank := Account(owner, currency, 0, false);
      var found := Query.Find(tx.accounts, (a: Account) => a.owner == owner && a.currency == currency);
      SameAccount(tx.accounts, owner, currency, found);
      if found.Some? { return Ok((tx, found.value)); }
      if id in tx.accounts { return Err(DuplicateKey); }
      return Ok((tx.(accounts := tx.accounts[id := blank]), id));
    }

    method DoDeposit(exchange: ExchangeId, character: Id, amount: int, currency: Currency,
                     systemId: Id, walletId: Id, id: Id) returns (r: Result<DepositOutcome>)
      requires Valid()
      modifies this
      ensures Valid()
      ensures (State(), r) == Ledger.DoDeposit(old(State()), exchange, character, amount, currency, systemId, walletId, id)
    {
      DepositKeepsInv(State(), exchange, character, amount, currency, systemId, walletId, id);
      if amount <= 0 { return Err(Invalid); }
      if exchange in exchanges {
        var stored := exchanges[exchange];
        if stored.character != character || stored.amount != amount { return Err(Invalid); }
        return Ok(DepositOutcome(None, stored.amount, stored.state, false));
      }
      if character !in characters { return Err(NotFound); }
      var tx := Tables(characters, accounts, transfers, holds, exchanges);
      var first := GetOrCreateAccount(tx, None, currency, systemId);
      if first.Err? { return Err(first.fail); }
      SystemKeepsInv(tx, currency, systemId);
      var (tx1, system) := first.value;
      var second := GetOrCreateAccount(tx1, Some(character), currency, walletId);
      if second.Err? { return Err(second.fail); }
      WalletKeepsInv(tx1, character, currency, walletId);
      var (tx2, wallet) := second.value;
      if tx2.accounts[system].frozen { return Err(Conflict); }
      var posted := PostRow(tx2, id, Transfer(system, wallet, amount, DepositLeg, None));
      if posted.Err? { return Err(posted.fail); }
      tx := posted.value;
      tx := tx.(exchanges := tx.exchanges[exchange := Exchange(character, amount, Deposit, Done, None)]);
      Commit(tx);
      return Ok(DepositOutcome(Some(character), amount, Done, true));
    }

    method DoWithdraw(character: Id, currency: Currency, amount: int, now: int, holdId: Id, exchange: ExchangeId)
      returns (r: Result<ExchangeId>)
      requires Valid()
      modifies this
      ensures Valid()
      ensures (State(), r) == Ledger.DoWithdraw(old(State()), character, currency, amount, now, holdId, exchange)
    {
      WithdrawKeepsInv(State(), character, currency, amount, now, holdId, exchange);
      if amount <= 0 { return Err(Invalid); }
      var found := Query.Find(accounts, WalletOf(character, currency));
      SameAccount(accounts, Some(character), currency, found);
      if found.None? { return Err(Conflict); }
      var wallet := found.value;
      if accounts[wallet].frozen { return Err(Conflict); }
      var held := Query.Total(holds, HeldOn(wallet));
      if accounts[wallet].balance - held < amount { return Err(Conflict); }
      if holdId in holds || exchange in exchanges { return Err(DuplicateKey); }
      holds := holds[holdId := Hold(wallet, amount, HoldFsm.Held, now + WITHDRAW_HOLD_SECS)];
      exchanges := exchanges[exchange := Exchange(character, amount, Withdraw, PendingConfirm, Some(holdId))];
      return Ok(exchange);
    }

    method DoWithdrawConfirm(exchange: ExchangeId, character: Id, amount: int, currency: Currency, systemId: Id, id: Id)
      returns (r: Result<ConfirmOutcome>)
      requires Valid()
      modifies this
      ensures Valid()
      ensures (State(), r) == Ledger.DoWithdrawConfirm(old(State()), exchange, character, amount, currency, systemId, id)
    {
      ConfirmKeepsInv(State(), exchange, character, amount, currency, systemId, id);
      if exchange !in exchanges || exchanges[exchange].direction != Withdraw { return Err(NotFound); }
      var ex := exchanges[exchange];
      if ex.character != character || ex.amount != amount { return Err(Invalid); }
      if ex.state.Done? { return Ok(ConfirmOutcome(Done, ex.amount)); }
      if ex.state.Expired? { return Err(Conflict); }
      if ex.hold.None? { return Err(Internal); }
      var hold := ex.hold.value;
      var tx := Tables(characters, accounts, transfers, holds, exchanges);
      var slot := GetOrCreateAccount(tx, None, currency, systemId);
      if slot.Err? { return Err(slot.fail); }
      SystemKeepsInv(tx, currency, systemId);
      var (tx1, system) := slot.value;
      if hold !in tx1.holds { return Err(Internal); }
      var h := tx1.holds[hold];
      var next := HoldFsm.Apply(h.state, HoldFsm.Capture);
      if next.None? { return Err(Conflict); }
      if h.account !in tx1.accounts || h.account == system { return Err(Internal); }
      if tx1.accounts[h.account].frozen || tx1.accounts[system].frozen { return Err(Conflict); }
      tx := tx1.(holds := tx1.holds[hold := h.(state := next.value)]);
      var posted := PostRow(tx, id, Transfer(h.account, system, h.amount, WithdrawLeg, None));
      if posted.Err? { return Err(posted.fail); }
      tx := posted.value;
      tx := tx.(exchanges := tx.exchanges[exchange := ex.(state := Done)]);
      Commit(tx);
      return Ok(ConfirmOutcome(Done, ex.amount));
    }

    method ExpireExchanges(now: int) returns (rows: map<ExchangeId, Exchange>)
      ensures rows == ExpiredExchanges(exchanges, holds, now)
    {
      rows := exchanges;
      var todo := exchanges.Keys;
      while todo != {}
        invariant todo <= exchanges.Keys && rows.Keys == exchanges.Keys
        invariant forall e :: e in exchanges ==>
                    rows[e] == if e in todo then exchanges[e] else ExpiredExchanges(exchanges, holds, now)[e]
        decreases |todo|
      {
        var e :| e in todo;
        if BehindLapsed(exchanges[e], holds, now) {
          rows := rows[e := rows[e].(state := Expired)];
        }
        todo := todo - {e};
      }
    }

    method ReleaseLapsed(now: int) returns (rows: map<Id, Hold>)
      ensures rows == ReleasedHolds(holds, accounts, now)
    {
      rows := holds;
      var todo := holds.Keys;
      while todo != {}
        invariant todo <= holds.Keys && rows.Keys == holds.Keys
        invariant forall h :: h in holds ==> rows[h] == if h in todo then holds[h] else ReleasedHolds(holds, accounts, now)[h]
        decreases |todo|
      {
        var h :| h in todo;
        if Lapsed(holds[h], now) && holds[h].account in accounts {
          rows := rows[h := rows[h].(state := HoldFsm.Released)];
        }
        todo := todo - {h};
      }
    }

    /** The janitor: exchanges first, then holds. */
    method ExpireHolds(now: int)
      requires Valid()
      modifies this
      ensures Valid()
      ensures State() == DoExpireHolds(old(State()), now)
    {
      ExpireKeepsInv(State(), now);
      var xs := ExpireExchanges(now);
      var hs := ReleaseLapsed(now);
      exchanges, holds := xs, hs;
    }

    /** Recompute one balance from the journal. */
    method HasDrifted(a: Id) returns (drifted: bool)
      requires a in accounts
      ensures drifted <==> Drifted(State(), a)
    {
      var credit := Query.Total(transfers, CreditTo(a));
      var debit := Query.Total(transfers, DebitFrom(a));
      drifted := !accounts[a].frozen && accounts[a].balance != credit - debit;
    }

    method DriftedAccounts() returns (drifted: set<Id>)
      ensures drifted == set a | a in accounts && Drifted(State(), a)
    {
      ghost var all := set a | a in accounts && Drifted(State(), a);
      drifted := {};
      var todo := accounts.Keys;
      while todo != {}
        invariant todo <= accounts.Keys
        invariant drifted == all - todo
        decreases |todo|
      {
        var a :| a in todo;
        var bad := HasDrifted(a);
        assert bad <==> a in all;
        if bad {
          drifted := drifted + {a};
        }
        todo := todo - {a};
      }
    }

    /** `cross_check`: on a mismatch every unfrozen system account is to be frozen. */
    method CrossCheck() returns (bad: set<Id>)
      ensures bad == set a | a in accounts && accounts[a].owner.None? && !accounts[a].frozen && !CrossChecked(transfers, exchanges)
    {
      var depositsDone := Query.Total(exchanges, DoneIn(Deposit));
      var depositLegs := Query.Total(transfers, LegOf(DepositLeg));
      var withdrawsDone := Query.Total(exchanges, DoneIn(Withdraw));
      var withdrawLegs := Query.Total(transfers, LegOf(WithdrawLeg));
      if depositsDone == depositLegs && withdrawsDone == withdrawLegs {
        return {};
      }
      return set a | a in accounts && accounts[a].owner.None? && !accounts[a].frozen;
    }

    /** The nightly reconciliation: freeze what the journal contradicts, then what
        the exchange cross-check does. */
    method Reconcile() returns (frozen: set<Id>)
      modifies this
      ensures (State(), frozen) == DoReconcile(old(State()))
    {
      ghost var bad := ToFreeze(State());
      var drifted := DriftedAccounts();
      var systems := CrossCheck();
      frozen := drifted + systems;
      assert frozen == bad;
      var rows := Freeze(accounts, drifted);
      rows := Freeze(rows, systems);
      assert rows == Freeze(accounts, bad);
      accounts := rows;
    }
  }

  /** The scan finds the row the specification speaks of: there is only one. */
  lemma SameIdemRow(transfers: Transfers, from: Id, client: Id, r: Id)
    requires Idempotent(transfers) && r in transfers && IsIdemRow(transfers[r], from, client)
    ensures FindRow(transfers, IdemRow(from, client)) == Some(r)
  {
    var found := FindRow(transfers, IdemRow(from, client));
    assert IdemRow(from, client)(transfers[r]);
    assert SameKey(transfers[r], transfers[found.value]);
  }

  lemma SameAccount(accounts: Accounts, owner: Option<Id>, currency: Currency, found: Option<Id>)
    requires OnePerSlot(accounts)
    requires found.Some? ==> found.value in accounts && accounts[found.value].owner == owner && accounts[found.value].currency == currency
    requires found.None? ==> forall a :: a in accounts ==> !(accounts[a].owner == owner && accounts[a].currency == currency)
    ensures owner.None? ==> FindRow(accounts, SystemOf(currency)) == found
    ensures owner.Some? ==> FindRow(accounts, WalletOf(owner.value, currency)) == found
  {
    var wanted := if owner.None? then SystemOf(currency) else WalletOf(owner.value, currency);
    var chosen := FindRow(accounts, wanted);
    if found.Some? {
      assert wanted(accounts[found.value]);
      assert SameSlot(accounts[found.value], accounts[chosen.value]);
    }
  }
}
