/** When the `limit_reached` flag of a budget can be trusted. */
module BudgetFlags {
  import opened Common
  import opened BillingModel

  /** A budget that has spent its monthly limit says so. */
  predicate Honest(b: Budget) {
    b.monthlyLimit.Some? && b.currentSpend >= b.monthlyLimit.value ==> b.limitReached
  }

  predicate PositiveLimit(b: Budget) {
    b.monthlyLimit.Some? ==> b.monthlyLimit.value > 0
  }

  ghost predicate AllHonest(budgets: map<Id, Budget>) {
    forall u :: u in budgets ==> Honest(budgets[u]) && PositiveLimit(budgets[u])
  }

  /** A refund of a debit of this user that nothing refuses, to a wallet it leaves with a positive balance, while
      the flag is set and the spend without the debit still reaches the limit. */
  predicate ClearsTooEarly(db: Db, c: Call, user: Id)
    requires user in db.budgets
  {
    && c.op.OpRefund? && c.op.user == user && user in db.wallets
    && FindTx(db.txs, c.op.original).Some?
    && var b, t := db.budgets[user], db.txs[FindTx(db.txs, c.op.original).value];
       && t.kind == Debit && t.wallet == user
       && !AlreadyRefundedIn(db.ledger, c.op.original) && !Clashes(db, c.op.txId, RefundRow(t, c.now))
       && b.limitReached && db.wallets[user].balance + t.amount > 0
       && b.monthlyLimit.Some? && b.currentSpend - t.amount >= b.monthlyLimit.value
  }

  /** A new limit for a budget whose flag is clear and whose spend already reaches that limit. */
  predicate LowersToSpend(db: Db, c: Call, user: Id)
    requires user in db.budgets
  {
    && c.op.OpBudget? && (c.op.change.PutBudget? || c.op.change.PatchBudget?) && c.op.change.user == user
    && var limit := if c.op.change.PutBudget? then Some(c.op.change.limit) else c.op.change.newLimit;
       && limit.Some? && limit.value > 0
       && !db.budgets[user].limitReached && db.budgets[user].currentSpend >= limit.value
  }

  /** The two calls that leave a flag false. */
  predicate Misleads(db: Db, c: Call, user: Id)
    requires user in db.budgets
  {
    ClearsTooEarly(db, c, user) || LowersToSpend(db, c, user)
  }

  lemma {:induction false} ReleasesSpareBudgets(db: Db, ids: seq<nat>, now: Time)
    ensures ReleaseAll(db, ids, now).0.budgets == db.budgets
  {
    hide HasKey;
    if ids != [] {
      ReleasesSpareBudgets(db, ids[..|ids| - 1], now);
    }
  }

  /** One change of the budgets keeps a user's flag honest unless it lowers the limit like that. */
  lemma BudgetStepKeepsFlag(db: Db, c: Call, user: Id)
    requires c.op.OpBudget?
    requires user in db.budgets && Honest(db.budgets[user]) && PositiveLimit(db.budgets[user])
    ensures user in Apply(db, c).budgets && PositiveLimit(Apply(db, c).budgets[user])
    ensures Honest(Apply(db, c).budgets[user]) <==> !LowersToSpend(db, c, user)
  {
  }

  lemma RefundKeepsFlag(db: Db, c: Call, user: Id)
    requires c.op.OpRefund?
    requires user in db.budgets && Honest(db.budgets[user]) && PositiveLimit(db.budgets[user])
    ensures user in Apply(db, c).budgets && PositiveLimit(Apply(db, c).budgets[user])
    ensures Honest(Apply(db, c).budgets[user]) <==> !ClearsTooEarly(db, c, user)
  {
    hide HasKey, Clashes, AlreadyRefundedIn, FindTx;
  }

  lemma WalletCallKeepsFlag(db: Db, c: Call, user: Id)
    requires c.op.OpAddCredit? || c.op.OpDeductCredit? || c.op.OpSetStatus?
    requires user in db.budgets && Honest(db.budgets[user]) && PositiveLimit(db.budgets[user])
    ensures user in Apply(db, c).budgets && PositiveLimit(Apply(db, c).budgets[user])
    ensures Honest(Apply(db, c).budgets[user])
  {
    match c.op
    case OpAddCredit(u, amount, reference, txId) =>
      hide AddCreditStep;
      AddCreditEnds(db, u, amount, reference, txId, c.now);
    case OpDeductCredit(u, amount, reference, txId) =>
      hide DeductCreditStep;
      DeductCreditEnds(db, u, amount, reference, txId, c.now);
    case OpSetStatus(u, status) =>
  }

  lemma EngineCallKeepsFlag(db: Db, c: Call, user: Id)
    requires c.op.OpReserve? || c.op.OpSettle? || c.op.OpRelease? || c.op.OpExpire?
    requires user in db.budgets && Honest(db.budgets[user]) && PositiveLimit(db.budgets[user])
    ensures user in Apply(db, c).budgets && PositiveLimit(Apply(db, c).budgets[user])
    ensures Honest(Apply(db, c).budgets[user])
  {
    hide FirstViolation, HasKey, SettlementRows, ReleaseAll, ExpiryBatch;
    match c.op
    case OpExpire(limit) => ReleasesSpareBudgets(db, ExpiryBatch(db, limit, c.now), c.now);
    case _ =>
  }

  /** One call, whatever it is and however it ends, keeps a user's flag honest if and only if it is neither such a
      refund nor such a new limit. */
  lemma ApplyKeepsFlag(db: Db, c: Call, user: Id)
    requires user in db.budgets && Honest(db.budgets[user]) && PositiveLimit(db.budgets[user])
    ensures user in Apply(db, c).budgets && PositiveLimit(Apply(db, c).budgets[user])
    ensures Honest(Apply(db, c).budgets[user]) <==> !Misleads(db, c, user)
  {
    hide Apply, Honest, PositiveLimit;
    match c.op
    case OpRefund(_, _, _) => RefundKeepsFlag(db, c, user);
    case OpBudget(_) => BudgetStepKeepsFlag(db, c, user);
    case OpAddCredit(_, _, _, _) => WalletCallKeepsFlag(db, c, user);
    case OpDeductCredit(_, _, _, _) => WalletCallKeepsFlag(db, c, user);
    case OpSetStatus(_, _) => WalletCallKeepsFlag(db, c, user);
    case _ => EngineCallKeepsFlag(db, c, user);
  }

  /** A budget that a call creates starts honest. */
  lemma NewBudgetHonest(db: Db, c: Call, user: Id)
    requires user !in db.budgets && user in Apply(db, c).budgets
    ensures Honest(Apply(db, c).budgets[user]) && PositiveLimit(Apply(db, c).budgets[user])
  {
    match c.op
    case OpAddCredit(u, amount, reference, txId) =>
      hide AddCreditStep;
      AddCreditEnds(db, u, amount, reference, txId, c.now);
    case OpDeductCredit(u, amount, reference, txId) =>
      hide DeductCreditStep;
      DeductCreditEnds(db, u, amount, reference, txId, c.now);
    case OpRefund(u, original, txId) =>
      hide HasKey, Clashes, AlreadyRefundedIn, FindTx;
    case OpReserve(request) =>
      hide FirstViolation, HasKey;
    case OpSettle(id, actual, kind, providerCost) =>
      hide FirstViolation, HasKey, SettlementRows;
    case OpRelease(id) =>
      hide HasKey;
    case OpExpire(limit) =>
      hide ReleaseAll, ExpiryBatch;
      ReleasesSpareBudgets(db, ExpiryBatch(db, limit, c.now), c.now);
    case OpSetStatus(u, status) =>
    case OpBudget(change) =>
  }

  /** Nobody is misled by a call. */
  ghost predicate MisleadsNobody(db: Db, c: Call) {
    forall u :: u in db.budgets ==> !Misleads(db, c, u)
  }

  lemma ApplyKeepsFlags(db: Db, c: Call)
    requires AllHonest(db.budgets)
    ensures AllHonest(Apply(db, c).budgets) <==> MisleadsNobody(db, c)
  {
    hide Apply, Honest, PositiveLimit, Misleads;
    forall u | u in db.budgets
      ensures u in Apply(db, c).budgets && PositiveLimit(Apply(db, c).budgets[u])
      ensures Honest(Apply(db, c).budgets[u]) <==> !Misleads(db, c, u)
    {
      ApplyKeepsFlag(db, c, u);
    }
    forall u | u in Apply(db, c).budgets && u !in db.budgets
      ensures Honest(Apply(db, c).budgets[u]) && PositiveLimit(Apply(db, c).budgets[u])
    {
      NewBudgetHonest(db, c, u);
    }
  }

  ghost predicate HonestThroughout(db: Db, calls: seq<Call>) {
    forall i :: 0 <= i <= |calls| ==> AllHonest(Run(db, calls[..i]).budgets)
  }

  ghost predicate NeverMisleads(db: Db, calls: seq<Call>) {
    forall i :: 0 <= i < |calls| ==> MisleadsNobody(Run(db, calls[..i]), calls[i])
  }

  /** Along every run all flags stay honest if and only if no call of the run is one of the two. */
  lemma {:induction false} FlagsTellTheTruth(budgets: map<Id, Budget>, limits: seq<SpendingLimit>, calls: seq<Call>)
    requires AllHonest(budgets)
    ensures HonestThroughout(Initial(budgets, limits), calls) <==> NeverMisleads(Initial(budgets, limits), calls)
  {
    hide Apply, AllHonest, MisleadsNobody, HonestThroughout, NeverMisleads;
    var init := Initial(budgets, limits);
    if calls == [] {
      EmptyRun(init);
    } else {
      var n := |calls| - 1;
      FlagsTellTheTruth(budgets, limits, calls[..n]);
      ThroughoutNext(init, calls);
      if HonestThroughout(init, calls[..n]) {
        ApplyKeepsFlags(Run(init, calls[..n]), calls[n]);
      }
    }
  }

  lemma EmptyRun(db: Db)
    requires AllHonest(db.budgets)
    ensures HonestThroughout(db, []) && NeverMisleads(db, [])
  {
    hide AllHonest;
  }

  /** A run is one call more than the run before it. */
  lemma ThroughoutNext(db: Db, calls: seq<Call>)
    requires calls != []
    ensures var n := |calls| - 1;
            && (HonestThroughout(db, calls) <==> HonestThroughout(db, calls[..n]) && AllHonest(Apply(Run(db, calls[..n]), calls[n]).budgets))
            && (NeverMisleads(db, calls) <==> NeverMisleads(db, calls[..n]) && MisleadsNobody(Run(db, calls[..n]), calls[n]))
            && (HonestThroughout(db, calls[..n]) ==> AllHonest(Run(db, calls[..n]).budgets))
  {
    hide AllHonest, MisleadsNobody, Apply;
    var n := |calls| - 1;
    assert Run(db, calls) == Apply(Run(db, calls[..n]), calls[n]);
    assert calls[..n + 1] == calls;
    hide Run;
    assert forall i :: 0 <= i <= n ==> calls[..n][..i] == calls[..i];
    assert calls[..n][..n] == calls[..n];
  }

  ghost predicate LeavesLimits(c: Call) {
    !c.op.OpRefund? && !(c.op.OpBudget? && (c.op.change.PutBudget? || c.op.change.PatchBudget?))
  }

  /** So on every run without refunds and new limits every budget that has spent its limit says so. */
  lemma FlagsTrueWithoutThem(budgets: map<Id, Budget>, limits: seq<SpendingLimit>, calls: seq<Call>)
    requires AllHonest(budgets) && forall i :: 0 <= i < |calls| ==> LeavesLimits(calls[i])
    ensures HonestThroughout(Initial(budgets, limits), calls)
  {
    hide Run, HonestThroughout;
    FlagsTellTheTruth(budgets, limits, calls);
  }

  /** The smallest such new limit: a spend of five, no limit reached, and a limit of five from now on. */
  lemma LoweringMisleads()
    ensures var budgets := map["alice" := Budget(Some(10), 5, false)];
            AllHonest(budgets) && !Honest(PutStep(budgets, "alice", 5)["alice"])
  {
  }
}
