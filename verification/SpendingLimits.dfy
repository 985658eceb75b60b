/** What a lifetime spending limit guarantees over whole runs, and what it does not. */
module SpendingLimits {
  import opened Common
  import opened BillingModel
  import opened BillingInvariants
  import Money

  /** Settled spending plus open holds charged to one scope. */
  function Under(db: Db, l: SpendingLimit): int {
    Sum(db.ledger, SpendUnder(l.scope, l.scopeId, 0)) + Sum(db.holds, HeldUnder(l.scope, l.scopeId, 0, None))
  }

  predicate InScope(l: SpendingLimit, s: Scopes) {
    s.Get(l.scope) == Some(l.scopeId)
  }

  predicate LifetimeLimit(l: SpendingLimit) {
    l.active && l.period == Lifetime
  }

  /** Direct debits write spend for their user without consulting any limit. */
  predicate BypassesLimit(c: Call, l: SpendingLimit) {
    c.op.OpDeductCredit? && l.scope == UserScope && c.op.user == l.scopeId
  }

  /** A call that settles an open reservation in scope for more than its estimate. */
  predicate Overruns(db: Db, c: Call, l: SpendingLimit) {
    c.op.OpSettle? && c.op.id < |db.holds|
    && db.holds[c.op.id].status == Reserved && InScope(l, db.holds[c.op.id].scopes)
    && Money.Round(c.op.actual) > db.holds[c.op.id].estimated
  }

  /** The run has no direct debits of the limited user. */
  predicate MeteredRun(calls: seq<Call>, l: SpendingLimit) {
    forall i :: 0 <= i < |calls| ==> !BypassesLimit(calls[i], l)
  }

  /** No call of the run overruns its estimate in the limited scope. */
  predicate NoOverruns(db: Db, calls: seq<Call>, l: SpendingLimit) {
    forall i :: 0 <= i < |calls| ==> !Overruns(Run(db, calls[..i]), calls[i], l)
  }

  ghost predicate HoldsWithin(db: Db, l: SpendingLimit) {
    forall i :: 0 <= i < |db.holds| && db.holds[i].status == Reserved && InScope(l, db.holds[i].scopes) ==>
      db.holds[i].estimated <= l.amount
  }

  /** The two facts about reservation rows that the limit argument needs. */
  ghost predicate PlainHolds(db: Db) {
    forall i :: 0 <= i < |db.holds| ==> db.holds[i].id == i && db.holds[i].estimated > 0
  }

  ghost predicate KeepsLimit(db: Db, l: SpendingLimit, bound: int) {
    l in db.limits && HoldsWithin(db, l) && Under(db, l) <= Max(0, bound)
  }

  // ---- sums under one appended row or one changed hold ----------------------

  lemma UnderSnoc(db: Db, db': Db, row: LedgerRow, l: SpendingLimit)
    requires db'.ledger == db.ledger + [row] && db'.holds == db.holds
    ensures Under(db', l) == Under(db, l) + SpendUnder(l.scope, l.scopeId, 0)(row)
  {
    SumSnoc(db.ledger, row, SpendUnder(l.scope, l.scopeId, 0));
  }

  /** Leaving one open reservation out of the held sum takes exactly its estimate out. */
  lemma ExcludeOne(holds: seq<Hold>, id: nat, l: SpendingLimit)
    requires id < |holds| && holds[id].status == Reserved
    requires forall i :: 0 <= i < |holds| ==> holds[i].id == i
    ensures Sum(holds, HeldUnder(l.scope, l.scopeId, 0, Some(id)))
         == Sum(holds, HeldUnder(l.scope, l.scopeId, 0, None)) - if InScope(l, holds[id].scopes) then holds[id].estimated else 0
  {
    SumDiffersAt(holds, id, HeldUnder(l.scope, l.scopeId, 0, None), HeldUnder(l.scope, l.scopeId, 0, Some(id)));
  }

  /** A settlement's rows add the charge to the spend under a limit when it is in scope and listed. */
  lemma SettlementSpend(ledger: seq<LedgerRow>, h: Hold, actual: int, c: Charge, l: SpendingLimit)
    ensures Sum(ledger + SettlementRows(h, actual, c), SpendUnder(l.scope, l.scopeId, 0))
         == Sum(ledger, SpendUnder(l.scope, l.scopeId, 0))
            + if InScope(l, h.scopes) && c.kind in SPENDING_TYPES then actual else 0
  {
    var rows := SettlementRows(h, actual, c);
    var f := SpendUnder(l.scope, l.scopeId, 0);
    SumSnoc(ledger, rows[0], f);
    if |rows| == 2 {
      SumSnoc(ledger + [rows[0]], rows[1], f);
      assert ledger + rows == ledger + [rows[0]] + [rows[1]];
    } else {
      assert rows == [rows[0]];
    }
  }

  /** What a settlement does to the total under a limit: the hold leaves it, and the charge enters it
      when its type is a spending type. */
  lemma UnderSettled(db: Db, id: nat, actual: int, c: Charge, l: SpendingLimit)
    requires id < |db.holds| && db.holds[id].status == Reserved && db.holds[id].scopes.user in db.wallets
    ensures Under(SettledDb(db, id, actual, c), l) - Under(db, l)
         == if !InScope(l, db.holds[id].scopes) then 0
            else (if c.kind in SPENDING_TYPES then actual else 0) - db.holds[id].estimated
  {
    hide Sum, SettlementRows, ChargeBudget;
    SettlementSpend(db.ledger, db.holds[id], actual, c, l);
    SumUpdate(db.holds, id, SettledDb(db, id, actual, c).holds[id], HeldUnder(l.scope, l.scopeId, 0, None));
  }

  lemma UnderReleased(db: Db, id: nat, now: Time, l: SpendingLimit)
    requires id < |db.holds| && db.holds[id].status == Reserved && db.holds[id].scopes.user in db.wallets
    ensures Under(ReleasedDb(db, id, now), l)
         == Under(db, l) - if InScope(l, db.holds[id].scopes) then db.holds[id].estimated else 0
  {
    var db' := ReleasedDb(db, id, now);
    SumSnoc(db.ledger, db'.ledger[|db.ledger|], SpendUnder(l.scope, l.scopeId, 0));
    SumUpdate(db.holds, id, db'.holds[id], HeldUnder(l.scope, l.scopeId, 0, None));
  }

  lemma UnderOpened(db: Db, h: Hold, l: SpendingLimit)
    requires h.status == Reserved
    ensures Under(Opened(db, h), l) == Under(db, l) + if InScope(l, h.scopes) then h.estimated else 0
  {
    SumSnoc(db.ledger, ReservationRow(h), SpendUnder(l.scope, l.scopeId, 0));
    SumSnoc(db.holds, h, HeldUnder(l.scope, l.scopeId, 0, None));
  }

  /** An admitted charge leaves every lifetime limit of its scopes with room for it. */
  lemma AdmittedFits(db: Db, l: SpendingLimit, amount: int, scopes: Scopes, now: Time, exclude: Option<nat>)
    requires l in db.limits && LifetimeLimit(l) && InScope(l, scopes)
    requires FirstViolation(db, 0, amount, scopes, now, exclude).None?
    ensures Sum(db.ledger, SpendUnder(l.scope, l.scopeId, 0))
            + Sum(db.holds, HeldUnder(l.scope, l.scopeId, 0, exclude)) + amount <= l.amount
  {
    CheckExact(db, amount, scopes, now, exclude);
    var i :| 0 <= i < |db.limits| && db.limits[i] == l;
    assert Applies(db.limits[i], scopes);
  }

  // ---- one call -------------------------------------------------------------

  lemma ReserveKeepsLimit(db: Db, req: ReserveRequest, now: Time, l: SpendingLimit, bound: int)
    requires LifetimeLimit(l) && KeepsLimit(db, l, bound) && bound >= l.amount
    requires SpendNonNegative(db)
    requires PlainHolds(db)
    ensures KeepsLimit(ReserveStep(db, req, now).0, l, bound)
  {
    var h := NewHold(db, req, now);
    var (db', o) := ReserveStep(db, req, now);
    if db' == Opened(db, h) {
      UnderOpened(db, h, l);
      if InScope(l, h.scopes) {
        AdmittedFits(db, l, h.estimated, h.scopes, now, None);
        SumAtLeast(db.ledger, SpendUnder(l.scope, l.scopeId, 0));
        SumAtLeast(db.holds, HeldUnder(l.scope, l.scopeId, 0, None));
      }
    }
  }

  /** The overrun check leaves the reservation itself out and tests only the additional amount, so what it
      admits can pass the limit by at most the reservation's estimate. */
  lemma SettleKeepsLimit(db: Db, id: nat, actual: int, c: Charge, l: SpendingLimit, bound: int)
    requires LifetimeLimit(l) && KeepsLimit(db, l, bound)
    requires id < |db.holds| && db.holds[id].status == Reserved && db.holds[id].estimated > 0
    requires PlainHolds(db)
    requires SettleRefusal(db, id, actual, c.now).None?
    requires actual > db.holds[id].estimated && InScope(l, db.holds[id].scopes) ==> bound >= 2 * l.amount
    ensures KeepsLimit(SettledDb(db, id, actual, c), l, bound)
  {
    hide Sum, SettlementRows, ChargeBudget, FirstViolation, HasKey, SpendUnder, HeldUnder;
    var h := db.holds[id];
    UnderSettled(db, id, actual, c, l);
    if actual > h.estimated && InScope(l, h.scopes) {
      AdmittedFits(db, l, actual - h.estimated, h.scopes, c.now, Some(id));
      ExcludeOne(db.holds, id, l);
    }
  }

  lemma SettleStepKeepsLimit(db: Db, id: nat, actual: real, c: Charge, l: SpendingLimit, bound: int)
    requires LifetimeLimit(l) && KeepsLimit(db, l, bound) && PlainHolds(db)
    requires (id < |db.holds| && db.holds[id].status == Reserved && InScope(l, db.holds[id].scopes)
              && Money.Round(actual) > db.holds[id].estimated) ==> bound >= 2 * l.amount
    ensures KeepsLimit(SettleStep(db, id, actual, c).0, l, bound)
  {
    if id < |db.holds| && db.holds[id].status == Reserved && SettleRefusal(db, id, Money.Round(actual), c.now).None? {
      SettleKeepsLimit(db, id, Money.Round(actual), c, l, bound);
    }
  }

  lemma ReleaseKeepsLimit(db: Db, id: nat, now: Time, l: SpendingLimit, bound: int)
    requires KeepsLimit(db, l, bound)
    requires PlainHolds(db)
    ensures KeepsLimit(ReleaseStep(db, id, now).0, l, bound)
  {
    if id < |db.holds| && db.holds[id].status == Reserved && db.holds[id].scopes.user in db.wallets {
      UnderReleased(db, id, now, l);
    }
  }

  lemma {:induction false} ReleaseAllKeepsLimit(db: Db, ids: seq<nat>, now: Time, l: SpendingLimit, bound: int)
    requires KeepsLimit(db, l, bound)
    requires PlainHolds(db)
    ensures KeepsLimit(ReleaseAll(db, ids, now).0, l, bound)
    ensures PlainHolds(ReleaseAll(db, ids, now).0)
  {
    if ids != [] {
      ReleaseAllKeepsLimit(db, ids[..|ids| - 1], now, l, bound);
      var db1 := ReleaseAll(db, ids[..|ids| - 1], now).0;
      ReleaseKeepsLimit(db1, ids[|ids| - 1], now, l, bound);
    }
  }

  /** A posted row that is no spend in the scope leaves the total alone. */
  lemma PostKeepsLimit(db: Db, db': Db, row: LedgerRow, l: SpendingLimit, bound: int)
    requires KeepsLimit(db, l, bound)
    requires db'.ledger == db.ledger + [row] && db'.holds == db.holds && db'.limits == db.limits
    requires !IsSpendRow(row) || !InScope(l, row.scopes)
    ensures KeepsLimit(db', l, bound)
  {
    UnderSnoc(db, db', row, l);
  }

  lemma CreditedKeepsLimit(db: Db, t: WalletTx, row: LedgerRow, l: SpendingLimit, bound: int)
    requires KeepsLimit(db, l, bound) && t.wallet in db.wallets && row.kind == TopUp
    ensures KeepsLimit(CreditedDb(db, t, row), l, bound)
  {
    PostKeepsLimit(db, CreditedDb(db, t, row), row, l, bound);
  }

  lemma DebitedKeepsLimit(db: Db, t: WalletTx, row: LedgerRow, l: SpendingLimit, bound: int)
    requires KeepsLimit(db, l, bound) && t.wallet in db.wallets && !InScope(l, row.scopes)
    ensures KeepsLimit(DebitedDb(db, t, row), l, bound)
  {
    PostKeepsLimit(db, DebitedDb(db, t, row), row, l, bound);
  }

  lemma AddCreditKeepsLimit(db: Db, user: Id, amount: int, reference: Option<string>, txId: Id, now: Time,
                            l: SpendingLimit, bound: int)
    requires KeepsLimit(db, l, bound)
    ensures KeepsLimit(AddCreditStep(db, user, amount, reference, txId, now).0, l, bound)
  {
    var db1, row := GetWallet(db, user), TopUpRow(user, amount, reference, txId, now);
    var t := CreditTx(db1, user, amount, reference, txId);
    assert KeepsLimit(db1, l, bound);
    CreditedKeepsLimit(db1, t, row, l, bound);
    AddCreditEnds(db, user, amount, reference, txId, now);
    hide AddCreditStep, CreditedDb, KeepsLimit;
  }

  lemma DeductCreditKeepsLimit(db: Db, user: Id, amount: int, reference: Option<string>, txId: Id, now: Time,
                               l: SpendingLimit, bound: int)
    requires KeepsLimit(db, l, bound)
    requires l.scope == UserScope ==> user != l.scopeId
    ensures KeepsLimit(DeductCreditStep(db, user, amount, reference, txId, now).0, l, bound)
  {
    var db1, row := GetWallet(db, user), DebitRow(user, amount, reference, txId, now);
    assert KeepsLimit(db1, l, bound);
    DebitedKeepsLimit(db1, DebitTx(db1, user, amount, reference, txId), row, l, bound);
    DeductCreditEnds(db, user, amount, reference, txId, now);
    hide DeductCreditStep, DebitedDb, KeepsLimit;
  }

  lemma RefundKeepsLimit(db: Db, user: Id, original: Id, txId: Id, now: Time, l: SpendingLimit, bound: int)
    requires KeepsLimit(db, l, bound)
    ensures KeepsLimit(RefundStep(db, user, original, txId, now).0, l, bound)
  {
    if RefundStep(db, user, original, txId, now).1.Done? {
      var t := db.txs[FindTx(db.txs, original).value];
      PostKeepsLimit(db, RefundedDb(db, RefundTx(db, t, txId), RefundRow(t, now)), RefundRow(t, now), l, bound);
    }
  }

  lemma SetStatusKeepsLimit(db: Db, user: Id, status: WalletStatus, l: SpendingLimit, bound: int)
    requires KeepsLimit(db, l, bound)
    ensures KeepsLimit(SetStatus(db, user, status), l, bound)
  {
  }

  lemma BudgetsKeepLimit(db: Db, budgets: map<Id, Budget>, l: SpendingLimit, bound: int)
    requires KeepsLimit(db, l, bound)
    ensures KeepsLimit(db.(budgets := budgets), l, bound)
  {
  }

  lemma ApplyKeepsLimit(db: Db, c: Call, l: SpendingLimit, bound: int)
    requires PlainHolds(db) && SpendNonNegative(db)
    requires LifetimeLimit(l) && KeepsLimit(db, l, bound) && bound >= l.amount
    requires !BypassesLimit(c, l)
    requires Overruns(db, c, l) ==> bound >= 2 * l.amount
    ensures KeepsLimit(Apply(db, c), l, bound)
  {
    hide KeepsLimit, AddCreditStep, DeductCreditStep, RefundStep, ReserveStep, SettleStep, ReleaseStep, ReleaseAll;
    match c.op
    case OpReserve(request) => ReserveKeepsLimit(db, request, c.now, l, bound);
    case OpSettle(id, actual, kind, providerCost) =>
      SettleStepKeepsLimit(db, id, actual, Charge(kind, providerCost, c.now), l, bound);
    case OpRelease(id) => ReleaseKeepsLimit(db, id, c.now, l, bound);
    case OpExpire(limit) => ReleaseAllKeepsLimit(db, ExpiryBatch(db, limit, c.now), c.now, l, bound);
    case OpAddCredit(user, amount, reference, txId) => AddCreditKeepsLimit(db, user, amount, reference, txId, c.now, l, bound);
    case OpDeductCredit(user, amount, reference, txId) =>
      DeductCreditKeepsLimit(db, user, amount, reference, txId, c.now, l, bound);
    case OpRefund(user, original, txId) => RefundKeepsLimit(db, user, original, txId, c.now, l, bound);
    case OpSetStatus(user, status) => SetStatusKeepsLimit(db, user, status, l, bound);
    case OpBudget(change) => BudgetsKeepLimit(db, BudgetStep(db.budgets, change), l, bound);
  }

  /** No spending row is ever negative. */
  ghost predicate SpendNonNegative(db: Db) {
    forall r :: r in db.ledger && IsSpendRow(r) ==> r.amount >= 0
  }

  lemma {:induction false} ReleaseAllKeepsSpend(db: Db, ids: seq<nat>, now: Time)
    requires SpendNonNegative(db)
    ensures SpendNonNegative(ReleaseAll(db, ids, now).0)
  {
    if ids != [] {
      ReleaseAllKeepsSpend(db, ids[..|ids| - 1], now);
    }
  }

  lemma ApplyKeepsSpend(db: Db, c: Call)
    requires SpendNonNegative(db)
    ensures SpendNonNegative(Apply(db, c))
  {
    match c.op
    case OpExpire(limit) => ReleaseAllKeepsSpend(db, ExpiryBatch(db, limit, c.now), c.now);
    case _ =>
  }

  lemma SoundIsPlain(db: Db)
    requires Sound(db)
    ensures PlainHolds(db)
  {
    forall i | 0 <= i < |db.holds|
      ensures db.holds[i].id == i && db.holds[i].estimated > 0
    {
      assert HoldSound(db, i);
    }
  }

  // ---- every run ------------------------------------------------------------

  lemma {:induction false} RunsKeepLimit(budgets: map<Id, Budget>, limits: seq<SpendingLimit>, calls: seq<Call>,
                                         l: SpendingLimit, bound: int)
    requires l in limits && LifetimeLimit(l) && MeteredRun(calls, l)
    requires bound >= l.amount
    requires bound >= 2 * l.amount || NoOverruns(Initial(budgets, limits), calls, l)
    ensures KeepsLimit(Run(Initial(budgets, limits), calls), l, bound)
    ensures SpendNonNegative(Run(Initial(budgets, limits), calls))
  {
    if calls != [] {
      var n := |calls| - 1;
      var init := Initial(budgets, limits);
      assert forall i :: 0 <= i < n ==> calls[..n][..i] == calls[..i];
      RunsKeepLimit(budgets, limits, calls[..n], l, bound);
      RunsAreSound(budgets, limits, calls[..n]);
      SoundIsPlain(Run(init, calls[..n]));
      ApplyKeepsSpend(Run(init, calls[..n]), calls[n]);
      ApplyKeepsLimit(Run(init, calls[..n]), calls[n], l, bound);
    }
  }

  /** A lifetime limit L, active from the start, on any of the five scopes: settled spending plus open
      holds never exceeds L on a run without overruns, and never exceeds 2L on any run. */
  lemma LifetimeLimitHolds(budgets: map<Id, Budget>, limits: seq<SpendingLimit>, calls: seq<Call>, l: SpendingLimit)
    requires l in limits && LifetimeLimit(l) && MeteredRun(calls, l)
    ensures NoOverruns(Initial(budgets, limits), calls, l) ==>
              Under(Run(Initial(budgets, limits), calls), l) <= Max(0, l.amount)
    ensures Under(Run(Initial(budgets, limits), calls), l) <= Max(0, 2 * l.amount)
  {
    if NoOverruns(Initial(budgets, limits), calls, l) {
      RunsKeepLimit(budgets, limits, calls, l, l.amount);
    }
    RunsKeepLimit(budgets, limits, calls, l, Max(l.amount, 2 * l.amount));
  }

  /** Exactly when an accepted overrun ends past the limit: when the total before it, the reservation's own
      estimate included, had no room for the additional amount. */
  lemma OverrunPassesLimitIff(db: Db, id: nat, actual: int, c: Charge, l: SpendingLimit)
    requires id < |db.holds| && db.holds[id].status == Reserved && InScope(l, db.holds[id].scopes)
    requires c.kind in SPENDING_TYPES && SettleRefusal(db, id, actual, c.now).None?
    ensures Under(SettledDb(db, id, actual, c), l) > l.amount
       <==> Under(db, l) + (actual - db.holds[id].estimated) > l.amount
  {
    UnderSettled(db, id, actual, c, l);
  }

  /** An accepted overrun ends past the limit by at most the estimate the reservation was opened with. */
  lemma OverrunAtMostEstimate(db: Db, id: nat, actual: int, c: Charge, l: SpendingLimit)
    requires l in db.limits && LifetimeLimit(l) && PlainHolds(db)
    requires id < |db.holds| && db.holds[id].status == Reserved && InScope(l, db.holds[id].scopes)
    requires db.holds[id].scopes.user in db.wallets
    requires actual > db.holds[id].estimated && SettleRefusal(db, id, actual, c.now).None?
    ensures Under(SettledDb(db, id, actual, c), l) <= l.amount + db.holds[id].estimated
  {
    UnderSettled(db, id, actual, c, l);
    AdmittedFits(db, l, actual - db.holds[id].estimated, db.holds[id].scopes, c.now, Some(id));
    ExcludeOne(db.holds, id, l);
  }
}
