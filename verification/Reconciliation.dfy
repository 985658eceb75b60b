/** The ledger rebuilds the wallet, and what a reconciliation therefore reports. */
module Reconciliation {
  import opened Common
  import opened BillingModel
  import opened BillingInvariants
  import Money

  function TopUpOf(user: Id): LedgerRow -> int {
    (r: LedgerRow) => if r.kind == TopUp && r.status == RowSettled && r.scopes.user == user then r.amount else 0
  }

  function SpendOf(user: Id): LedgerRow -> int {
    (r: LedgerRow) => if IsSpendRow(r) && r.scopes.user == user then r.amount else 0
  }

  function RefundOf(user: Id): LedgerRow -> int {
    (r: LedgerRow) => if r.kind == Reversal && r.status == RowSettled && r.scopes.user == user then r.amount else 0
  }

  /** How far the wallet's spend is from the ledger's: zero when the ledger tells it exactly. */
  function SpendGap(db: Db, user: Id): int
    requires user in db.wallets
  {
    db.wallets[user].spent + Sum(db.ledger, RefundOf(user)) - Sum(db.ledger, SpendOf(user))
  }

  ghost predicate LedgerTellsWallet(db: Db, u: Id)
    requires u in db.wallets
  {
    db.wallets[u].topups == Sum(db.ledger, TopUpOf(u)) && SpendGap(db, u) == 0
  }

  ghost predicate LedgerSound(db: Db) {
    && (forall u :: u in db.wallets ==> LedgerTellsWallet(db, u))
    && (forall k :: 0 <= k < |db.ledger| ==> db.ledger[k].scopes.user in db.wallets)
    && (forall k :: 0 <= k < |db.ledger| && db.ledger[k].kind == Reversal && db.ledger[k].status == RowSettled ==>
          db.ledger[k].amount > 0)
  }

  /** Settlements that name one of the spending types. */
  predicate Listed(c: Call) {
    c.op.OpSettle? ==> c.op.kind in SPENDING_TYPES
  }

  predicate AllListed(calls: seq<Call>) {
    forall i :: 0 <= i < |calls| ==> Listed(calls[i])
  }

  lemma LedgerSumsSnoc(ledger: seq<LedgerRow>, row: LedgerRow, u: Id)
    ensures Sum(ledger + [row], TopUpOf(u)) == Sum(ledger, TopUpOf(u)) + TopUpOf(u)(row)
    ensures Sum(ledger + [row], SpendOf(u)) == Sum(ledger, SpendOf(u)) + SpendOf(u)(row)
    ensures Sum(ledger + [row], RefundOf(u)) == Sum(ledger, RefundOf(u)) + RefundOf(u)(row)
  {
    SumSnoc(ledger, row, TopUpOf(u));
    SumSnoc(ledger, row, SpendOf(u));
    SumSnoc(ledger, row, RefundOf(u));
  }

  /** One ledger row and one wallet row change together: what a call must add to keep the ledger telling
      the wallet. */
  lemma PostKeepsLedger(db: Db, db': Db, row: LedgerRow)
    requires LedgerSound(db)
    requires db'.ledger == db.ledger + [row]
    requires row.kind == Reversal && row.status == RowSettled ==> row.amount > 0
    requires var user := row.scopes.user;
             && user in db'.wallets
             && db'.wallets.Keys == db.wallets.Keys + {user}
             && (forall u :: u in db.wallets && u != user ==> db'.wallets[u] == db.wallets[u])
             && db'.wallets[user].topups == WalletOrNew(db, user).topups + TopUpOf(user)(row)
             && db'.wallets[user].spent == WalletOrNew(db, user).spent + SpendOf(user)(row) - RefundOf(user)(row)
    ensures LedgerSound(db')
  {
    hide Sum;
    forall u | u in db'.wallets
      ensures LedgerTellsWallet(db', u)
    {
      LedgerSumsSnoc(db.ledger, row, u);
      if u in db.wallets {
        assert LedgerTellsWallet(db, u);
      } else {
        SumZero(db.ledger, TopUpOf(u));
        SumZero(db.ledger, SpendOf(u));
        SumZero(db.ledger, RefundOf(u));
      }
    }
  }

  lemma GetWalletKeepsLedger(db: Db, user: Id)
    requires LedgerSound(db)
    ensures LedgerSound(GetWallet(db, user))
  {
    hide Sum;
    var db' := GetWallet(db, user);
    forall u | u in db'.wallets
      ensures LedgerTellsWallet(db', u)
    {
      if u in db.wallets {
        assert LedgerTellsWallet(db, u);
      } else {
        SumZero(db.ledger, TopUpOf(u));
        SumZero(db.ledger, SpendOf(u));
        SumZero(db.ledger, RefundOf(u));
      }
    }
  }

  lemma ReserveKeepsLedger(db: Db, req: ReserveRequest, now: Time)
    requires LedgerSound(db)
    ensures LedgerSound(ReserveStep(db, req, now).0)
  {
    var h := NewHold(db, req, now);
    if ReserveStep(db, req, now).0 == Opened(db, h) {
      PostKeepsLedger(db, Opened(db, h), ReservationRow(h));
    }
  }

  /** A settlement moves the gap by nothing when its type is a spending type, and by at least the
      amount otherwise: a reversal is even counted as a refund. */
  lemma SettleGap(db: Db, id: nat, actual: int, c: Charge, u: Id)
    requires id < |db.holds| && db.holds[id].scopes.user in db.wallets && u in db.wallets
    ensures SpendGap(SettledDb(db, id, actual, c), u) - SpendGap(db, u)
         == if u != db.holds[id].scopes.user || c.kind in SPENDING_TYPES then 0
            else if c.kind == Reversal then 2 * actual
            else actual
    ensures Sum(SettledDb(db, id, actual, c).ledger, TopUpOf(u)) - Sum(db.ledger, TopUpOf(u))
         == if u == db.holds[id].scopes.user && c.kind == TopUp then actual else 0
  {
    hide Sum;
    SettlementSums(db.ledger, db.holds[id], actual, c, u);
    hide SettlementRows, Sum, SpendOf, RefundOf, TopUpOf;
  }

  lemma SettlementSums(ledger: seq<LedgerRow>, h: Hold, actual: int, c: Charge, u: Id)
    ensures var ledger' := ledger + SettlementRows(h, actual, c);
            && Sum(ledger', SpendOf(u)) == Sum(ledger, SpendOf(u)) + (if u == h.scopes.user && c.kind in SPENDING_TYPES then actual else 0)
            && Sum(ledger', RefundOf(u)) == Sum(ledger, RefundOf(u)) + (if u == h.scopes.user && c.kind == Reversal then actual else 0)
            && Sum(ledger', TopUpOf(u)) == Sum(ledger, TopUpOf(u)) + (if u == h.scopes.user && c.kind == TopUp then actual else 0)
  {
    var rows := SettlementRows(h, actual, c);
    LedgerSumsSnoc(ledger, rows[0], u);
    if |rows| == 2 {
      LedgerSumsSnoc(ledger + [rows[0]], rows[1], u);
      assert ledger + rows == ledger + [rows[0]] + [rows[1]];
    } else {
      assert rows == [rows[0]];
    }
  }

  /** Exactly the settlements of a spending type, or of nothing, keep the ledger telling the wallet. */
  lemma SettleKeepsLedgerIff(db: Db, id: nat, actual: int, c: Charge)
    requires LedgerSound(db) && id < |db.holds| && db.holds[id].scopes.user in db.wallets
    ensures (forall u :: u in db.wallets ==> LedgerTellsWallet(SettledDb(db, id, actual, c), u))
       <==> c.kind in SPENDING_TYPES || actual == 0
  {
    hide Sum;
    var db' := SettledDb(db, id, actual, c);
    var user := db.holds[id].scopes.user;
    assert LedgerTellsWallet(db, user);
    SettleGap(db, id, actual, c, user);
    if c.kind in SPENDING_TYPES || actual == 0 {
      forall u | u in db.wallets
        ensures LedgerTellsWallet(db', u)
      {
        assert LedgerTellsWallet(db, u);
        SettleGap(db, id, actual, c, u);
      }
    } else {
      assert !LedgerTellsWallet(db', user);
    }
  }

  lemma SettledKeepsLedger(db: Db, id: nat, actual: int, c: Charge)
    requires LedgerSound(db) && id < |db.holds| && db.holds[id].scopes.user in db.wallets
    requires c.kind in SPENDING_TYPES
    ensures LedgerSound(SettledDb(db, id, actual, c))
  {
    hide Sum;
    SettleKeepsLedgerIff(db, id, actual, c);
    var db', rows := SettledDb(db, id, actual, c), SettlementRows(db.holds[id], actual, c);
    assert db'.ledger == db.ledger + rows;
    assert forall k :: 0 <= k < |rows| ==>
        rows[k].scopes.user in db'.wallets && !(rows[k].kind == Reversal && rows[k].status == RowSettled);
    assert forall k :: |db.ledger| <= k < |db'.ledger| ==> db'.ledger[k] == rows[k - |db.ledger|];
  }

  lemma SettleKeepsLedger(db: Db, id: nat, actualAmount: real, c: Charge)
    requires LedgerSound(db) && c.kind in SPENDING_TYPES
    ensures LedgerSound(SettleStep(db, id, actualAmount, c).0)
  {
    if id < |db.holds| && db.holds[id].scopes.user in db.wallets {
      SettledKeepsLedger(db, id, Money.Round(actualAmount), c);
    }
  }

  lemma ReleaseKeepsLedger(db: Db, id: nat, now: Time)
    requires LedgerSound(db)
    ensures LedgerSound(ReleaseStep(db, id, now).0)
  {
    if id < |db.holds| && db.holds[id].scopes.user in db.wallets {
      PostKeepsLedger(db, ReleasedDb(db, id, now), ReleaseRow(db.holds[id], db.holds[id].estimated, now));
    }
  }

  lemma {:induction false} ReleaseAllKeepsLedger(db: Db, ids: seq<nat>, now: Time)
    requires LedgerSound(db)
    ensures LedgerSound(ReleaseAll(db, ids, now).0)
  {
    if ids != [] {
      ReleaseAllKeepsLedger(db, ids[..|ids| - 1], now);
      ReleaseKeepsLedger(ReleaseAll(db, ids[..|ids| - 1], now).0, ids[|ids| - 1], now);
    }
  }

  lemma CreditKeepsLedger(db: Db, t: WalletTx, row: LedgerRow)
    requires LedgerSound(db) && t.wallet in db.wallets
    requires row.kind == TopUp && row.status == RowSettled && row.amount == t.amount && row.scopes.user == t.wallet
    ensures LedgerSound(CreditedDb(db, t, row))
  {
    PostKeepsLedger(db, CreditedDb(db, t, row), row);
  }

  lemma AddCreditKeepsLedger(db: Db, user: Id, amount: int, reference: Option<string>, txId: Id, now: Time)
    requires LedgerSound(db)
    ensures LedgerSound(AddCreditStep(db, user, amount, reference, txId, now).0)
  {
    var db1 := GetWallet(db, user);
    GetWalletKeepsLedger(db, user);
    AddCreditEnds(db, user, amount, reference, txId, now);
    hide LedgerSound, AddCreditStep, CreditedDb;
    CreditKeepsLedger(db1, CreditTx(db1, user, amount, reference, txId), TopUpRow(user, amount, reference, txId, now));
  }

  lemma DebitKeepsLedger(db: Db, t: WalletTx, row: LedgerRow)
    requires LedgerSound(db) && t.wallet in db.wallets
    requires row.kind == AiInference && row.status == RowSettled && row.amount == t.amount && row.scopes.user == t.wallet
    ensures LedgerSound(DebitedDb(db, t, row))
  {
    PostKeepsLedger(db, DebitedDb(db, t, row), row);
  }

  lemma DeductCreditKeepsLedger(db: Db, user: Id, amount: int, reference: Option<string>, txId: Id, now: Time)
    requires LedgerSound(db)
    ensures LedgerSound(DeductCreditStep(db, user, amount, reference, txId, now).0)
  {
    var db1 := GetWallet(db, user);
    GetWalletKeepsLedger(db, user);
    DeductCreditEnds(db, user, amount, reference, txId, now);
    hide LedgerSound, DeductCreditStep, DebitedDb;
    DebitKeepsLedger(db1, DebitTx(db1, user, amount, reference, txId), DebitRow(user, amount, reference, txId, now));
  }

  lemma RefundedKeepsLedger(db: Db, t: WalletTx, row: LedgerRow)
    requires LedgerSound(db) && t.wallet in db.wallets && 0 < t.amount <= db.wallets[t.wallet].spent
    requires row.kind == Reversal && row.status == RowSettled && row.amount == t.amount && row.scopes.user == t.wallet
    ensures LedgerSound(RefundedDb(db, t, row))
  {
    PostKeepsLedger(db, RefundedDb(db, t, row), row);
  }

  lemma RefundKeepsLedger(db: Db, user: Id, original: Id, txId: Id, now: Time)
    requires Sound(db) && LedgerSound(db)
    ensures LedgerSound(RefundStep(db, user, original, txId, now).0)
  {
    hide Sound, LedgerSound;
    if RefundStep(db, user, original, txId, now).1.Done? {
      var n := FindTx(db.txs, original).value;
      RefundClampIdle(db, n);
      RefundedKeepsLedger(db, RefundTx(db, db.txs[n], txId), RefundRow(db.txs[n], now));
    }
  }

  lemma SetStatusKeepsLedger(db: Db, user: Id, status: WalletStatus)
    requires LedgerSound(db)
    ensures LedgerSound(SetStatus(db, user, status))
  {
    forall u | u in db.wallets
      ensures LedgerTellsWallet(SetStatus(db, user, status), u)
    {
      assert LedgerTellsWallet(db, u);
    }
  }

  lemma BudgetsKeepLedger(db: Db, budgets: map<Id, Budget>)
    requires LedgerSound(db)
    ensures LedgerSound(db.(budgets := budgets))
  {
    forall u | u in db.wallets
      ensures LedgerTellsWallet(db.(budgets := budgets), u)
    {
      assert LedgerTellsWallet(db, u);
    }
  }

  lemma ApplyKeepsLedger(db: Db, c: Call)
    requires Sound(db) && LedgerSound(db) && Listed(c)
    ensures LedgerSound(Apply(db, c))
  {
    hide LedgerSound, AddCreditStep, DeductCreditStep, RefundStep, ReserveStep, SettleStep, ReleaseStep, ReleaseAll, SetStatus, BudgetStep;
    match c.op
    case OpAddCredit(user, amount, reference, txId) => AddCreditKeepsLedger(db, user, amount, reference, txId, c.now);
    case OpDeductCredit(user, amount, reference, txId) => DeductCreditKeepsLedger(db, user, amount, reference, txId, c.now);
    case OpRefund(user, original, txId) => RefundKeepsLedger(db, user, original, txId, c.now);
    case OpReserve(request) => ReserveKeepsLedger(db, request, c.now);
    case OpSettle(id, actual, kind, providerCost) => SettleKeepsLedger(db, id, actual, Charge(kind, providerCost, c.now));
    case OpRelease(id) => ReleaseKeepsLedger(db, id, c.now);
    case OpExpire(limit) => ReleaseAllKeepsLedger(db, ExpiryBatch(db, limit, c.now), c.now);
    case OpSetStatus(user, status) => SetStatusKeepsLedger(db, user, status);
    case OpBudget(change) => BudgetsKeepLedger(db, BudgetStep(db.budgets, change));
  }

  lemma {:induction false} RunsKeepLedger(budgets: map<Id, Budget>, limits: seq<SpendingLimit>, calls: seq<Call>)
    requires AllListed(calls)
    ensures LedgerSound(Run(Initial(budgets, limits), calls))
  {
    if calls != [] {
      var n := |calls| - 1;
      RunsKeepLedger(budgets, limits, calls[..n]);
      RunsAreSound(budgets, limits, calls[..n]);
      ApplyKeepsLedger(Run(Initial(budgets, limits), calls[..n]), calls[n]);
    }
  }

  /** The ledger and the open reservations alone determine every wallet. */
  lemma LedgerRebuildsWallet(budgets: map<Id, Budget>, limits: seq<SpendingLimit>, calls: seq<Call>, u: Id)
    requires AllListed(calls)
    requires u in Run(Initial(budgets, limits), calls).wallets
    ensures var db := Run(Initial(budgets, limits), calls);
            var w := db.wallets[u];
            && w.topups == Sum(db.ledger, TopUpOf(u))
            && w.spent == Sum(db.ledger, SpendOf(u)) - Sum(db.ledger, RefundOf(u))
            && w.reserved == Sum(db.holds, OpenHold(u))
            && w.balance == Sum(db.ledger, TopUpOf(u)) + Sum(db.ledger, RefundOf(u))
                            - Sum(db.ledger, SpendOf(u)) - Sum(db.holds, OpenHold(u))
  {
    RunsAreSound(budgets, limits, calls);
    RunsKeepLedger(budgets, limits, calls);
    var db := Run(Initial(budgets, limits), calls);
    assert WalletSound(db, u) && LedgerTellsWallet(db, u);
  }

  // ---- the reconciliation report --------------------------------------------

  datatype Mismatch = ReservedBalance | TotalSpent | NegativeBalance | ExpiredReservations

  /** The report for a user; an empty list means "ok".  A user without a wallet is in order. */
  function Reconcile(db: Db, user: Id, now: Time): seq<Mismatch> {
    if user !in db.wallets then []
    else
      var w := db.wallets[user];
      (if w.reserved != Sum(db.holds, OpenHold(user)) then [ReservedBalance] else [])
      + (if w.spent < Sum(db.ledger, SpendOf(user)) then [TotalSpent] else [])
      + (if w.balance < 0 || w.reserved < 0 then [NegativeBalance] else [])
      + (if HasExpired(db, user, now) then [ExpiredReservations] else [])
  }

  predicate HasExpired(db: Db, user: Id, now: Time) {
    exists i :: 0 <= i < |db.holds| && db.holds[i].scopes.user == user && Expired(db.holds[i], now)
  }

  predicate HasRefund(db: Db, user: Id) {
    exists k :: 0 <= k < |db.ledger| && db.ledger[k].kind == Reversal && db.ledger[k].status == RowSettled
      && db.ledger[k].scopes.user == user
  }

  lemma RefundSumPositiveIff(db: Db, u: Id)
    requires LedgerSound(db)
    ensures Sum(db.ledger, RefundOf(u)) >= 0
    ensures Sum(db.ledger, RefundOf(u)) > 0 <==> HasRefund(db, u)
  {
    SumAtLeast(db.ledger, RefundOf(u));
    if HasRefund(db, u) {
      var k :| 0 <= k < |db.ledger| && db.ledger[k].kind == Reversal && db.ledger[k].status == RowSettled
               && db.ledger[k].scopes.user == u;
      assert RefundOf(u)(db.ledger[k]) > 0;
    } else {
      SumZero(db.ledger, RefundOf(u));
    }
  }

  /** On every run whose settlements use the spending types, the report says nothing about the reserved
      or a negative balance, flags the spend exactly when the user was ever refunded, and flags expired
      reservations exactly when one is still open.  A refund alone makes a healthy wallet "not ok". */
  lemma ReconcileExact(budgets: map<Id, Budget>, limits: seq<SpendingLimit>, calls: seq<Call>, u: Id, now: Time)
    requires AllListed(calls)
    requires u in Run(Initial(budgets, limits), calls).wallets
    ensures var db := Run(Initial(budgets, limits), calls);
            Reconcile(db, u, now)
            == (if HasRefund(db, u) then [TotalSpent] else [])
             + (if HasExpired(db, u, now) then [ExpiredReservations] else [])
  {
    hide Sum;
    RunsAreSound(budgets, limits, calls);
    RunsKeepLedger(budgets, limits, calls);
    var db := Run(Initial(budgets, limits), calls);
    assert WalletSound(db, u) && LedgerTellsWallet(db, u);
    RefundSumPositiveIff(db, u);
    forall i | 0 <= i < |db.holds|
      ensures OpenHold(u)(db.holds[i]) >= 0
    {
      assert HoldSound(db, i);
    }
    SumAtLeast(db.holds, OpenHold(u));
  }
}
