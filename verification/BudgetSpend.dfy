/** A budget's spend over whole runs, read off the ledger: what settlements and debits posted since it was last
    restarted, less what refunds took back. */
module BudgetSpend {
  import opened Common
  import opened BillingModel
  import opened BillingLaws
  import Money

  /** A settlement's row of a user. */
  function SettlementOf(user: Id): LedgerRow -> int {
    (row: LedgerRow) => if row.resource.HoldOf? && row.status == RowSettled && row.scopes.user == user then row.amount else 0
  }

  /** A debit's row of a user. */
  function DebitOf(user: Id): LedgerRow -> int {
    (row: LedgerRow) =>
      if row.resource.Named? && row.kind == AiInference && row.status == RowSettled && row.scopes.user == user then row.amount else 0
  }

  /** The rows that a call posts. */
  function Posted(db: Db, db': Db): seq<LedgerRow> {
    if |db.ledger| <= |db'.ledger| then db'.ledger[|db.ledger|..] else []
  }

  /** What the posted rows add to a user's budget: settlements always, debits when there is a limit. */
  function Added(db: Db, db': Db, user: Id): int
    requires user in db.budgets
  {
    Sum(Posted(db, db'), SettlementOf(user))
    + if db.budgets[user].monthlyLimit.Some? then Sum(Posted(db, db'), DebitOf(user)) else 0
  }

  /** A flag that is set when money comes in and leaves the balance positive. */
  predicate ClearedBy(db: Db, db': Db, user: Id)
    requires user in db.budgets
  {
    |db'.txs| > |db.txs| && db.budgets[user].limitReached && user in db'.wallets && db'.wallets[user].balance > 0
  }

  /** A top-up that clears the flag, and the monthly reset, start the spend over. */
  predicate Restarts(db: Db, db': Db, op: Op, user: Id)
    requires user in db.budgets
  {
    (op.OpAddCredit? && op.user == user && ClearedBy(db, db', user))
    || (op.OpBudget? && op.change.ResetBudgets? && db.budgets[user].monthlyLimit.Some?)
  }

  /** A refund that clears the flag takes its amount back, but not more than was spent. */
  function TakenBack(db: Db, db': Db, op: Op, user: Id): int
    requires user in db.budgets
  {
    if op.OpRefund? && op.user == user && ClearedBy(db, db', user)
    then Min(db.budgets[user].currentSpend, db'.txs[|db'.txs| - 1].amount) else 0
  }

  function SpendNext(db: Db, db': Db, op: Op, user: Id): int
    requires user in db.budgets
  {
    if Restarts(db, db', op, user) then 0
    else db.budgets[user].currentSpend + Added(db, db', user) - TakenBack(db, db', op, user)
  }

  lemma NothingPosted(user: Id)
    ensures Sum([], SettlementOf(user)) == 0 && Sum([], DebitOf(user)) == 0
  {
  }

  lemma OnePosted(row: LedgerRow, user: Id)
    ensures Sum([row], SettlementOf(user)) == SettlementOf(user)(row)
    ensures Sum([row], DebitOf(user)) == DebitOf(user)(row)
  {
    SumSnoc([], row, SettlementOf(user));
    SumSnoc([], row, DebitOf(user));
    assert [] + [row] == [row];
  }

  /** Rows that are neither settlements nor debits. */
  ghost predicate Plain(rows: seq<LedgerRow>) {
    forall i :: 0 <= i < |rows| ==> rows[i].status != RowSettled || (!rows[i].resource.HoldOf? && rows[i].kind != AiInference)
  }

  lemma PlainAdds(rows: seq<LedgerRow>, user: Id)
    requires Plain(rows)
    ensures Sum(rows, SettlementOf(user)) == 0 && Sum(rows, DebitOf(user)) == 0
  {
    SumZero(rows, SettlementOf(user));
    SumZero(rows, DebitOf(user));
  }

  lemma SettlementAdds(db: Db, id: nat, actual: int, c: Charge, user: Id)
    requires id < |db.holds| && db.holds[id].scopes.user in db.wallets
    ensures var rows := Posted(db, SettledDb(db, id, actual, c));
            Sum(rows, SettlementOf(user)) == (if user == db.holds[id].scopes.user then actual else 0)
            && Sum(rows, DebitOf(user)) == 0
  {
    var rows := SettlementRows(db.holds[id], actual, c);
    assert Posted(db, SettledDb(db, id, actual, c)) == rows;
    OnePosted(rows[0], user);
    if |rows| == 2 {
      assert rows == [rows[0]] + [rows[1]];
      SumSnoc([rows[0]], rows[1], SettlementOf(user));
      SumSnoc([rows[0]], rows[1], DebitOf(user));
    } else {
      assert rows == [rows[0]];
    }
  }

  lemma {:induction false} ReleasesPostPlain(db: Db, ids: seq<nat>, now: Time)
    ensures var db' := ReleaseAll(db, ids, now).0;
            && db'.budgets == db.budgets && db'.txs == db.txs
            && |db.ledger| <= |db'.ledger| && db'.ledger[..|db.ledger|] == db.ledger && Plain(Posted(db, db'))
  {
    hide HasKey;
    if ids != [] {
      ReleasesPostPlain(db, ids[..|ids| - 1], now);
      var mid := ReleaseAll(db, ids[..|ids| - 1], now).0;
      var db' := ReleaseAll(db, ids, now).0;
      if db' != mid {
        assert Posted(db, db') == Posted(db, mid) + [db'.ledger[|mid.ledger|]];
      }
    }
  }

  // ---- one call -------------------------------------------------------------

  ghost predicate SpendLaw(db: Db, db': Db, op: Op, user: Id)
    requires user in db.budgets
  {
    user in db'.budgets && db'.budgets[user].currentSpend == SpendNext(db, db', op, user)
  }

  lemma SettleSpends(db: Db, c: Call, user: Id)
    requires user in db.budgets && c.op.OpSettle?
    ensures SpendLaw(db, Apply(db, c), c.op, user)
  {
    var charge, actual := Charge(c.op.kind, c.op.providerCost, c.now), Money.Round(c.op.actual);
    SettleDoes(db, c.op.id, c.op.actual, charge);
    NothingPosted(user);
    if Apply(db, c) != db {
      SettlementAdds(db, c.op.id, actual, charge, user);
    }
    hide FirstViolation, HasKey, SettlementRows, Sum, SettlementOf, DebitOf, Moves;
  }

  lemma ReserveSpends(db: Db, c: Call, user: Id)
    requires user in db.budgets && (c.op.OpReserve? || c.op.OpRelease? || c.op.OpExpire?)
    ensures SpendLaw(db, Apply(db, c), c.op, user)
  {
    NothingPosted(user);
    hide FirstViolation, HasKey, ReleaseAll, ExpiryBatch, Sum;
    var db' := Apply(db, c);
    match c.op
    case OpExpire(limit) =>
      ReleasesPostPlain(db, ExpiryBatch(db, limit, c.now), c.now);
      PlainAdds(Posted(db, db'), user);
    case _ =>
      PlainAdds(Posted(db, db'), user);
  }

  /** Nothing posted and no budget touched. */
  lemma QuietSpends(db: Db, db': Db, op: Op, user: Id)
    requires user in db.budgets && db'.budgets == db.budgets && db'.ledger == db.ledger && db'.txs == db.txs && !op.OpBudget?
    ensures SpendLaw(db, db', op, user)
  {
    NothingPosted(user);
    assert Posted(db, db') == [];
    hide Sum;
  }

  lemma CreditLawSpends(db: Db, db': Db, o: Outcome<Id>, op: Op, user: Id)
    requires user in db.budgets && op.OpAddCredit? && |db'.txs| > |db.txs|
    requires CreditLaw(db, db', o, op.user, op.amount, op.reference, op.txId)
    ensures SpendLaw(db, db', op, user)
  {
    hide Sum, Moves;
    PlainAdds(Posted(db, db'), user);
  }

  lemma CreditSpends(db: Db, c: Call, user: Id)
    requires user in db.budgets && c.op.OpAddCredit?
    ensures SpendLaw(db, Apply(db, c), c.op, user)
  {
    hide AddCreditStep, CreditLaw, SpendLaw;
    var (db', o) := AddCreditStep(db, c.op.user, c.op.amount, c.op.reference, c.op.txId, c.now);
    assert Apply(db, c) == db';
    CreditDoes(db, c.op.user, c.op.amount, c.op.reference, c.op.txId, c.now);
    if |db'.txs| > |db.txs| {
      CreditLawSpends(db, db', o, c.op, user);
    } else {
      AddCreditEnds(db, c.op.user, c.op.amount, c.op.reference, c.op.txId, c.now);
      QuietSpends(db, db', c.op, user);
    }
  }

  lemma DebitLawSpends(db: Db, db': Db, o: Outcome<Id>, op: Op, user: Id)
    requires user in db.budgets && op.OpDeductCredit? && |db'.txs| > |db.txs|
    requires DebitLaw(db, db', o, op.user, op.amount, op.reference, op.txId)
    ensures SpendLaw(db, db', op, user)
  {
    hide Sum, Moves;
    OnePosted(db'.ledger[|db.ledger|], user);
    assert Posted(db, db') == [db'.ledger[|db.ledger|]];
  }

  lemma DebitSpends(db: Db, c: Call, user: Id)
    requires user in db.budgets && c.op.OpDeductCredit?
    ensures SpendLaw(db, Apply(db, c), c.op, user)
  {
    hide DeductCreditStep, DebitLaw, SpendLaw;
    var (db', o) := DeductCreditStep(db, c.op.user, c.op.amount, c.op.reference, c.op.txId, c.now);
    assert Apply(db, c) == db';
    DebitDoes(db, c.op.user, c.op.amount, c.op.reference, c.op.txId, c.now);
    if |db'.txs| > |db.txs| {
      DebitLawSpends(db, db', o, c.op, user);
    } else {
      DeductCreditEnds(db, c.op.user, c.op.amount, c.op.reference, c.op.txId, c.now);
      QuietSpends(db, db', c.op, user);
    }
  }

  lemma RefundSpends(db: Db, c: Call, user: Id)
    requires user in db.budgets && c.op.OpRefund?
    ensures SpendLaw(db, Apply(db, c), c.op, user)
  {
    var db' := Apply(db, c);
    RefundDoes(db, c.op.user, c.op.original, c.op.txId, c.now);
    NothingPosted(user);
    hide RefundStep, Sum, Moves, FindTx;
    PlainAdds(Posted(db, db'), user);
  }

  lemma OtherSpends(db: Db, c: Call, user: Id)
    requires user in db.budgets && (c.op.OpSetStatus? || c.op.OpBudget?)
    ensures SpendLaw(db, Apply(db, c), c.op, user)
  {
    NothingPosted(user);
  }

  /** Every call changes the spend of every budget by exactly that. */
  lemma ApplySpends(db: Db, c: Call, user: Id)
    requires user in db.budgets
    ensures SpendLaw(db, Apply(db, c), c.op, user)
  {
    hide SpendLaw, Apply;
    match c.op
    case OpSettle(_, _, _, _) => SettleSpends(db, c, user);
    case OpAddCredit(_, _, _, _) => CreditSpends(db, c, user);
    case OpDeductCredit(_, _, _, _) => DebitSpends(db, c, user);
    case OpRefund(_, _, _) => RefundSpends(db, c, user);
    case OpSetStatus(_, _) => OtherSpends(db, c, user);
    case OpBudget(_) => OtherSpends(db, c, user);
    case _ => ReserveSpends(db, c, user);
  }

  // ---- whole runs -----------------------------------------------------------

  /** The spend that the posted rows, restarts and refunds of a run add up to. */
  function SpendOver(db: Db, calls: seq<Call>, user: Id): int
    requires user in db.budgets
  {
    if calls == [] then db.budgets[user].currentSpend
    else
      var n := |calls| - 1;
      var mid, end := Run(db, calls[..n]), Run(db, calls);
      if user !in mid.budgets then 0
      else if Restarts(mid, end, calls[n].op, user) then 0
      else SpendOver(db, calls[..n], user) + Added(mid, end, user) - TakenBack(mid, end, calls[n].op, user)
  }

  /** On every run every budget's spend is the sum of settlements and counted debits since its last restart, less what
      refunds took back. */
  lemma {:induction false} SpendIsPosted(db: Db, calls: seq<Call>, user: Id)
    requires user in db.budgets
    ensures user in Run(db, calls).budgets && Run(db, calls).budgets[user].currentSpend == SpendOver(db, calls, user)
  {
    hide Apply, Restarts, Added, TakenBack;
    if calls != [] {
      var n := |calls| - 1;
      SpendIsPosted(db, calls[..n], user);
      ApplySpends(Run(db, calls[..n]), calls[n], user);
    }
  }
}
