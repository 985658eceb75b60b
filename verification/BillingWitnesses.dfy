/** Runs that show where the billing services do less than their names suggest. */
module BillingWitnesses {
  import opened Common
  import opened BillingModel
  import opened BillingInvariants
  import opened BillingClosing
  import opened SpendingLimits
  import opened Reconciliation
  import Money

  lemma RoundInt(n: int)
    ensures Money.Round(n as real) == n
  {
    Money.RoundMeaning(n as real, n);
  }

  lemma RunSnoc(db: Db, calls: seq<Call>, c: Call)
    ensures Run(db, calls + [c]) == Apply(Run(db, calls), c)
  {
    assert (calls + [c])[..|calls|] == calls;
  }

  lemma RunOfThree(db: Db, a: Call, b: Call, c: Call)
    ensures Run(db, [a, b]) == Apply(Apply(db, a), b)
    ensures Run(db, [a, b, c]) == Apply(Apply(Apply(db, a), b), c)
  {
    hide Apply;
    assert Run(db, []) == db;
    RunSnoc(db, [], a);
    RunSnoc(db, [a], b);
    RunSnoc(db, [a, b], c);
    assert [] + [a] == [a] && [a] + [b] == [a, b] && [a, b] + [c] == [a, b, c];
  }

  function HoldAll(l: SpendingLimit, key: string): ReserveRequest {
    ReserveRequest(l.amount as real, key, UserOnly(l.scopeId), 900)
  }

  /** A user whose only limit is untouched and whose wallet covers twice the limit. */
  ghost predicate CanDouble(db: Db, l: SpendingLimit, key: string) {
    && db.limits == [l] && LifetimeLimit(l) && l.scope == UserScope && l.amount > 0
    && Under(db, l) == 0 && PlainHolds(db)
    && l.scopeId in db.wallets && db.wallets[l.scopeId].status == Active && db.wallets[l.scopeId].balance >= 2 * l.amount
    && FindHold(db.holds, key).None? && !HasKey(db.ledger, key + ":reservation") && !HasKey(db.ledger, key + ":settled")
  }

  /** One top-up of twice the limit is enough to get there. */
  lemma CanDoubleAfterTopUp(l: SpendingLimit, key: string)
    requires LifetimeLimit(l) && l.scope == UserScope && l.amount > 0
    ensures CanDouble(Run(Initial(map[], [l]), [Call(OpAddCredit(l.scopeId, 2 * l.amount, None, "t"), 0)]), l, key)
  {
    var init := Initial(map[], [l]);
    var c := Call(OpAddCredit(l.scopeId, 2 * l.amount, None, "t"), 0);
    RunSnoc(init, [], c);
    assert [] + [c] == [c];
    var db := Apply(init, c);
    assert FindTx([], "t").None?;
    var row := db.ledger[0];
    assert db.ledger == [] + [row] && db.holds == [];
    SumSnoc([], row, SpendUnder(l.scope, l.scopeId, 0));
    LastChar(key, ":reservation");
    LastChar(key, ":settled");
    assert row.key == "topup:" + "t";
    LastChar("topup:", "t");
  }

  lemma HoldingTheLimit(db: Db, l: SpendingLimit, key: string, now: Time)
    requires CanDouble(db, l, key)
    ensures ReserveStep(db, HoldAll(l, key), now) == (Opened(db, NewHold(db, HoldAll(l, key), now)), Done(|db.holds|))
    ensures NewHold(db, HoldAll(l, key), now).estimated == l.amount
    ensures Under(Opened(db, NewHold(db, HoldAll(l, key), now)), l) == l.amount
  {
    hide Sum, HasKey, FindHold, FirstViolation;
    RoundInt(l.amount);
    CheckExact(db, l.amount, UserOnly(l.scopeId), now, None);
    UnderOpened(db, NewHold(db, HoldAll(l, key), now), l);
  }

  /** The bound 2L is reached: hold the whole limit, then settle for twice as much. */
  lemma LimitCanDouble(db: Db, l: SpendingLimit, key: string, now: Time, c: Charge)
    requires CanDouble(db, l, key) && c.kind in SPENDING_TYPES
    ensures var (db1, r) := ReserveStep(db, HoldAll(l, key), now);
            && r == Done(|db.holds|)
            && var (db2, o) := SettleStep(db1, |db.holds|, (2 * l.amount) as real, c);
            && o == Done(|db.holds|)
            && Under(db2, l) == 2 * l.amount
  {
    hide Sum, FindHold, FirstViolation, ReserveStep;
    HoldingTheLimit(db, l, key, now);
    RoundInt(2 * l.amount);
    var id := |db.holds|;
    var h := NewHold(db, HoldAll(l, key), now);
    var db1 := Opened(db, h);
    assert h == db1.holds[id];
    ExcludeOne(db1.holds, id, l);
    CheckExact(db1, l.amount, h.scopes, c.now, Some(id));
    KeysDiffer(key, ":reservation", ":settled");
    assert !HasKey(db1.ledger, key + ":settled");
    UnderSettled(db1, id, 2 * l.amount, c, l);
  }

  /** Top up under a reference that ends like an engine key, then reserve under the key it completes. */
  const TOP_UP := Call(OpAddCredit("alice", 10, Some("x:settled"), "t"), 0)
  const HOLD := Call(OpReserve(ReserveRequest(5.0, "topup:x", UserOnly("alice"), 900)), 1)

  lemma AfterTopUp()
    ensures var db := Apply(Initial(map[], []), TOP_UP);
            && "alice" in db.wallets && db.wallets["alice"] == Wallet(10, 0, 0, 10, Active)
            && db.holds == [] && db.limits == []
            && |db.ledger| == 1 && db.ledger[0].key == "topup:x:settled"
  {
    assert "topup:" + "x:settled" == "topup:x:settled";
    assert WithReference([], "x:settled") == [] && FindTx([], "t").None?;
  }

  lemma HoldAccepted(db: Db)
    requires db.holds == [] && db.limits == [] && "alice" in db.wallets && db.wallets["alice"] == Wallet(10, 0, 0, 10, Active)
    requires |db.ledger| == 1 && db.ledger[0].key == "topup:x" + ":settled"
    ensures var after := Apply(db, HOLD);
            && |after.holds| == 1 && after.holds[0].status == Reserved && after.holds[0].estimated == 5
            && after.holds[0].key == "topup:x" && after.holds[0].scopes.user == "alice" && "alice" in after.wallets
            && after.wallets["alice"].balance == 5 && after.limits == []
            && |after.ledger| == 2 && after.ledger[0].key == "topup:x" + ":settled" && after.ledger[1].key == "topup:x" + ":reservation"
  {
    RoundInt(5);
    CheckExact(db, 5, UserOnly("alice"), 1, None);
    KeysDiffer("topup:x", ":settled", ":reservation");
    hide FirstViolation;
    assert Apply(db, HOLD) == Opened(db, NewHold(db, HOLD.op.request, 1));
    hide Apply, HasKey, FindHold;
  }

  lemma AfterHold()
    ensures var db := Run(Initial(map[], []), [TOP_UP, HOLD]);
            && |db.holds| == 1 && db.holds[0].status == Reserved && db.holds[0].estimated == 5
            && db.holds[0].key == "topup:x" && db.holds[0].scopes.user == "alice" && "alice" in db.wallets
            && db.wallets["alice"].balance == 5 && db.limits == []
            && |db.ledger| == 2 && db.ledger[0].key == "topup:x" + ":settled" && db.ledger[1].key == "topup:x" + ":reservation"
  {
    hide Apply, Run;
    var init := Initial(map[], []);
    AfterTopUp();
    assert "topup:x" + ":settled" == "topup:x:settled";
    HoldAccepted(Apply(init, TOP_UP));
    RunOfThree(init, TOP_UP, HOLD, HOLD);
  }

  /** A reservation the engine itself opened and can never settle, for any amount: within its estimate the
      top-up's ledger row already has the settlement's key, and so it has beyond it while the balance lasts.
      Only a release still closes it. */
  lemma TopUpBlocksSettlement(actual: int, now: Time)
    ensures var db := Run(Initial(map[], []), [TOP_UP, HOLD]);
            && |db.holds| == 1 && db.holds[0].status == Reserved && db.holds[0].estimated == 5
            && SettleRefusal(db, 0, actual, now).Some?
            && (0 <= actual <= 10 ==> SettleRefusal(db, 0, actual, now) == Some(IntegrityError))
            && ReleaseStep(db, 0, now).1 == Done(0)
  {
    hide Run, FirstViolation;
    AfterHold();
    var db := Run(Initial(map[], []), [TOP_UP, HOLD]);
    CheckExact(db, actual - 5, db.holds[0].scopes, now, Some(db.holds[0].id));
    KeysDiffer("topup:x", ":settled", ":release");
    KeysDiffer("topup:x", ":reservation", ":release");
  }

  // ---- refunds --------------------------------------------------------------

  const FUND := Call(OpAddCredit("alice", 30, None, "t"), 0)
  const DEBIT_20 := Call(OpDeductCredit("alice", 20, None, "d"), 1)
  const DEBIT_5 := Call(OpDeductCredit("alice", 5, None, "e"), 2)
  const REFUND_5 := Call(OpRefund("alice", "e", "r"), 3)
  const LIMIT_OF_10: map<Id, Budget> := map["alice" := Budget(Some(10), 0, false)]

  lemma CreditAccepted(db: Db, user: Id, amount: int, txId: Id, now: Time)
    requires amount > 0 && WalletOrNew(db, user).status == Active
    requires !Clashes(db, txId, TopUpRow(user, amount, None, txId, now))
    ensures var db1 := GetWallet(db, user);
            AddCreditStep(db, user, amount, None, txId, now).0
            == CreditedDb(db1, CreditTx(db1, user, amount, None, txId), TopUpRow(user, amount, None, txId, now))
  {
    hide HasKey, FindTx;
  }

  lemma DebitAccepted(db: Db, user: Id, amount: int, txId: Id, now: Time)
    requires amount > 0 && user in db.wallets && db.wallets[user].status == Active && db.wallets[user].balance >= amount
    requires !Clashes(db, txId, DebitRow(user, amount, None, txId, now))
    ensures DeductCreditStep(db, user, amount, None, txId, now).0
         == DebitedDb(db, DebitTx(db, user, amount, None, txId), DebitRow(user, amount, None, txId, now))
  {
    hide HasKey, FindTx;
  }

  /** Keys of different kinds start differently, and keys of one kind end with their transaction. */
  lemma KeysHere()
    ensures "topup:t" != "debit:d" && "topup:t" != "debit:e" && "debit:d" != "debit:e"
    ensures "refund:e" != "topup:t" && "refund:e" != "debit:d" && "refund:e" != "debit:e"
    ensures "topup:" + "t" == "topup:t" && "debit:" + "d" == "debit:d" && "debit:" + "e" == "debit:e" && "refund:" + "e" == "refund:e"
  {
    assert "topup:t"[0] == 't' && "debit:d"[0] == 'd' && "debit:e"[0] == 'd' && "refund:e"[0] == 'r';
    assert "debit:d"[6] == 'd' && "debit:e"[6] == 'e';
  }

  lemma FundAccepted(db: Db)
    requires db.wallets == map[] && db.holds == [] && db.txs == [] && db.ledger == [] && db.limits == []
    requires "alice" in db.budgets ==> !db.budgets["alice"].limitReached
    ensures var after := Apply(db, FUND);
            && after.wallets == map["alice" := Wallet(30, 0, 0, 30, Active)] && after.budgets == db.budgets
            && after.holds == [] && after.limits == []
            && |after.txs| == 1 && after.txs[0].id == "t" && after.txs[0].kind == Credit
            && |after.ledger| == 1 && after.ledger[0].key == "topup:t" && after.ledger[0].kind == TopUp
  {
    KeysHere();
    assert FindTx([], "t").None?;
    CreditAccepted(db, "alice", 30, "t", 0);
    hide AddCreditStep, HasKey, FindTx;
    assert GetWallet(db, "alice").wallets == map["alice" := EMPTY_WALLET];
  }

  lemma AfterFund(budgets: map<Id, Budget>)
    requires "alice" in budgets ==> !budgets["alice"].limitReached
    ensures var db := Apply(Initial(budgets, []), FUND);
            && db.wallets == map["alice" := Wallet(30, 0, 0, 30, Active)] && db.budgets == budgets
            && db.holds == [] && db.limits == []
            && |db.txs| == 1 && db.txs[0].id == "t" && db.txs[0].kind == Credit
            && |db.ledger| == 1 && db.ledger[0].key == "topup:t" && db.ledger[0].kind == TopUp
  {
    hide Apply;
    FundAccepted(Initial(budgets, []));
  }

  lemma AfterDebit20()
    ensures var db := Apply(Apply(Initial(LIMIT_OF_10, []), FUND), DEBIT_20);
            && db.wallets == map["alice" := Wallet(10, 0, 20, 30, Active)]
            && db.budgets == map["alice" := Budget(Some(10), 20, true)]
            && db.holds == []
            && |db.txs| == 2 && db.txs[0].id == "t" && db.txs[1].id == "d"
            && |db.ledger| == 2 && db.ledger[0].key == "topup:t" && db.ledger[1].key == "debit:d"
            && db.ledger[0].kind == TopUp && db.ledger[1].kind == AiInference
  {
    AfterFund(LIMIT_OF_10);
    KeysHere();
    var db1 := Apply(Initial(LIMIT_OF_10, []), FUND);
    DebitAccepted(db1, "alice", 20, "d", 1);
    hide AddCreditStep, DeductCreditStep, HasKey, FindTx;
  }

  lemma AfterDebit5(db: Db)
    requires db.wallets == map["alice" := Wallet(10, 0, 20, 30, Active)]
    requires db.budgets == map["alice" := Budget(Some(10), 20, true)] && db.holds == []
    requires |db.txs| == 2 && db.txs[0].id == "t" && db.txs[1].id == "d"
    requires |db.ledger| == 2 && db.ledger[0].key == "topup:t" && db.ledger[1].key == "debit:d"
    requires db.ledger[0].kind == TopUp && db.ledger[1].kind == AiInference
    ensures var after := Apply(db, DEBIT_5);
            && after.wallets == map["alice" := Wallet(5, 0, 25, 30, Active)]
            && after.budgets == map["alice" := Budget(Some(10), 25, true)]
            && after.holds == []
            && |after.txs| == 3 && after.txs[0].id == "t" && after.txs[1].id == "d"
            && after.txs[2].id == "e" && after.txs[2].kind == Debit && after.txs[2].amount == 5 && after.txs[2].wallet == "alice"
            && |after.ledger| == 3 && after.ledger[0].key == "topup:t" && after.ledger[1].key == "debit:d"
            && after.ledger[2].key == "debit:e"
            && (forall k :: 0 <= k < 3 ==> after.ledger[k].kind != Reversal)
  {
    KeysHere();
    assert FindTx(db.txs, "e").None? by { hide FindTx; }
    hide FindTx;
    DebitAccepted(db, "alice", 5, "e", 2);
    hide DeductCreditStep, HasKey;
  }

  /** A run whose refund clears the flag of a budget that is still spent twice over, and from then on makes the
      report of a wallet flag it, which it did not before. */
  lemma RefundMisleads(now: Time)
    ensures var before := Run(Initial(LIMIT_OF_10, []), [FUND, DEBIT_20, DEBIT_5]);
            var after := Run(Initial(LIMIT_OF_10, []), [FUND, DEBIT_20, DEBIT_5, REFUND_5]);
            && before.budgets == map["alice" := Budget(Some(10), 25, true)]
            && after.budgets == map["alice" := Budget(Some(10), 20, false)]
            && Reconcile(before, "alice", now) == []
            && Reconcile(after, "alice", now) == [TotalSpent]
  {
    hide Run, Apply, Reconcile;
    var init := Initial(LIMIT_OF_10, []);
    var before := Apply(Apply(Apply(init, FUND), DEBIT_20), DEBIT_5);
    RunOfThree(init, FUND, DEBIT_20, DEBIT_5);
    RunSnoc(init, [FUND, DEBIT_20, DEBIT_5], REFUND_5);
    assert [FUND, DEBIT_20, DEBIT_5] + [REFUND_5] == [FUND, DEBIT_20, DEBIT_5, REFUND_5];
    AfterDebit20();
    AfterDebit5(Apply(Apply(init, FUND), DEBIT_20));
    AfterRefund(before);
    NoHoldsExpire(before, now);
    NoHoldsExpire(Apply(before, REFUND_5), now);
    ReconcileExact(LIMIT_OF_10, [], [FUND, DEBIT_20, DEBIT_5], "alice", now);
    ReconcileExact(LIMIT_OF_10, [], [FUND, DEBIT_20, DEBIT_5, REFUND_5], "alice", now);
  }

  lemma NoHoldsExpire(db: Db, now: Time)
    requires db.holds == []
    ensures !HasExpired(db, "alice", now)
    ensures (forall k :: 0 <= k < |db.ledger| ==> db.ledger[k].kind != Reversal) ==> !HasRefund(db, "alice")
  {
  }

  lemma AfterRefund(db: Db)
    requires db.wallets == map["alice" := Wallet(5, 0, 25, 30, Active)]
    requires db.budgets == map["alice" := Budget(Some(10), 25, true)] && db.holds == []
    requires |db.txs| == 3 && db.txs[0].id == "t" && db.txs[1].id == "d"
    requires db.txs[2].id == "e" && db.txs[2].kind == Debit && db.txs[2].amount == 5 && db.txs[2].wallet == "alice"
    requires |db.ledger| == 3 && db.ledger[0].key == "topup:t" && db.ledger[1].key == "debit:d" && db.ledger[2].key == "debit:e"
    requires forall k :: 0 <= k < 3 ==> db.ledger[k].kind != Reversal
    ensures var after := Apply(db, REFUND_5);
            && after.budgets == map["alice" := Budget(Some(10), 20, false)]
            && after.holds == [] && "alice" in after.wallets && HasRefund(after, "alice")
  {
    KeysHere();
    hide FindTx;
    assert FindTx(db.txs, "e") == Some(2);
    assert FindTx(db.txs, "r").None?;
    var after := Apply(db, REFUND_5);
    assert after == RefundedDb(db, RefundTx(db, db.txs[2], "r"), RefundRow(db.txs[2], 3));
    assert after.ledger[3] == RefundRow(db.txs[2], 3);
  }

  // ---- a settlement of another type -----------------------------------------

  const HOLD_5 := Call(OpReserve(ReserveRequest(5.0, "y", UserOnly("alice"), 900)), 1)
  const SETTLE_5 := Call(OpSettle(0, 5.0, Adjustment, 0.0), 2)

  lemma AfterHold5(db: Db)
    requires db.wallets == map["alice" := Wallet(30, 0, 0, 30, Active)] && db.holds == [] && db.limits == []
    requires |db.ledger| == 1 && db.ledger[0].key == "topup:t" && db.ledger[0].kind == TopUp
    ensures var after := Apply(db, HOLD_5);
            && after.wallets == map["alice" := Wallet(25, 5, 0, 30, Active)] && after.limits == []
            && |after.holds| == 1 && after.holds[0].status == Reserved && after.holds[0].estimated == 5 && after.holds[0].key == "y"
            && after.holds[0].scopes == UserOnly("alice")
            && |after.ledger| == 2 && after.ledger[0].key == "topup:t" && after.ledger[1].key == "y" + ":reservation"
            && after.ledger[0].kind == TopUp && after.ledger[1].kind == Reservation
  {
    RoundInt(5);
    CheckExact(db, 5, UserOnly("alice"), 1, None);
    assert ("y" + ":reservation")[0] == 'y' && "topup:t"[0] == 't';
    hide FirstViolation;
    assert Apply(db, HOLD_5) == Opened(db, NewHold(db, HOLD_5.op.request, 1));
    hide Apply, HasKey, FindHold;
  }

  /** A run that settles with a type outside the spending types: the ledger's spend then lacks the amount, and the
      report does not notice. */
  lemma OtherTypeOpensGap(now: Time)
    ensures var db := Run(Initial(map[], []), [FUND, HOLD_5, SETTLE_5]);
            && "alice" in db.wallets && db.wallets["alice"].spent == 5
            && SpendGap(db, "alice") == 5 && !LedgerTellsWallet(db, "alice")
            && Reconcile(db, "alice", now) == []
  {
    hide Run, Apply;
    var init := Initial(map[], []);
    var held := Apply(Apply(init, FUND), HOLD_5);
    RunOfThree(init, FUND, HOLD_5, SETTLE_5);
    AfterFund(map[]);
    AfterHold5(Apply(init, FUND));
    SettleAccepted(held, Charge(Adjustment, 0.0, 2));
    RunsKeepLedger(map[], [], [FUND, HOLD_5]);
    RunsAreSound(map[], [], [FUND, HOLD_5, SETTLE_5]);
    hide Sound, LedgerSound, SettledDb, Reconcile, LedgerTellsWallet, SpendGap;
    GapUnnoticed(held, now);
  }

  lemma GapUnnoticed(held: Db, now: Time)
    requires LedgerSound(held) && held.wallets == map["alice" := Wallet(25, 5, 0, 30, Active)]
    requires |held.holds| == 1 && held.holds[0].status == Reserved && held.holds[0].estimated == 5
    requires held.holds[0].scopes == UserOnly("alice")
    requires |held.ledger| == 2 && held.ledger[0].kind == TopUp && held.ledger[1].kind == Reservation
    requires Sound(SettledDb(held, 0, 5, Charge(Adjustment, 0.0, 2)))
    ensures var db := SettledDb(held, 0, 5, Charge(Adjustment, 0.0, 2));
            && db.wallets["alice"].spent == 5 && SpendGap(db, "alice") == 5 && !LedgerTellsWallet(db, "alice")
            && Reconcile(db, "alice", now) == []
  {
    var c := Charge(Adjustment, 0.0, 2);
    var db := SettledDb(held, 0, 5, c);
    hide Sound, LedgerSound, WalletSound, SettledDb, LedgerTellsWallet, SpendGap, Reconcile;
    NothingRefunded(held);
    SoundWallet(db, "alice");
    SpendUnseen(held, c);
    QuietReport(db, now);
  }

  lemma NothingRefunded(held: Db)
    requires LedgerSound(held) && "alice" in held.wallets
    requires |held.ledger| == 2 && held.ledger[0].kind == TopUp && held.ledger[1].kind == Reservation
    ensures LedgerTellsWallet(held, "alice") && Sum(held.ledger, RefundOf("alice")) == 0
  {
    RefundSumPositiveIff(held, "alice");
    hide Sum;
  }

  lemma SoundWallet(db: Db, user: Id)
    requires Sound(db)
    ensures user in db.wallets ==> WalletSound(db, user)
  {
    hide RowsSound, WalletSound;
  }

  lemma SpendUnseen(held: Db, c: Charge)
    requires |held.holds| == 1 && held.holds[0].scopes == UserOnly("alice") && held.holds[0].estimated == 5
    requires held.wallets == map["alice" := Wallet(25, 5, 0, 30, Active)]
    requires "alice" in held.wallets && LedgerTellsWallet(held, "alice")
    requires Sum(held.ledger, RefundOf("alice")) == 0 && c.kind == Adjustment
    ensures var db := SettledDb(held, 0, 5, c);
            && db.wallets == map["alice" := Wallet(25, 0, 5, 30, Active)]
            && |db.holds| == 1 && db.holds[0].status == Settled
            && Sum(db.ledger, SpendOf("alice")) == 0 && SpendGap(db, "alice") == 5 && !LedgerTellsWallet(db, "alice")
  {
    SettlementSums(held.ledger, held.holds[0], 5, c, "alice");
    hide Sum, SettlementRows, SpendOf, RefundOf, TopUpOf;
  }

  lemma QuietReport(db: Db, now: Time)
    requires db.wallets == map["alice" := Wallet(25, 0, 5, 30, Active)] && WalletSound(db, "alice")
    requires |db.holds| == 1 && db.holds[0].status == Settled && Sum(db.ledger, SpendOf("alice")) == 0
    ensures Reconcile(db, "alice", now) == []
  {
    hide Sum, SpendOf;
  }

  lemma SettleAccepted(db: Db, c: Charge)
    requires db.wallets == map["alice" := Wallet(25, 5, 0, 30, Active)] && db.limits == []
    requires |db.holds| == 1 && db.holds[0].status == Reserved && db.holds[0].estimated == 5 && db.holds[0].key == "y"
    requires db.holds[0].scopes == UserOnly("alice")
    requires |db.ledger| == 2 && db.ledger[0].key == "topup:t" && db.ledger[1].key == "y" + ":reservation"
    requires c == Charge(Adjustment, 0.0, 2)
    ensures Apply(db, SETTLE_5) == SettledDb(db, 0, 5, c)
    ensures SettledDb(db, 0, 5, c).wallets["alice"] == Wallet(25, 0, 5, 30, Active)
  {
    RoundInt(5);
    KeysDiffer("y", ":settled", ":reservation");
    assert ("y" + ":settled")[0] == 'y' && "topup:t"[0] == 't';
    hide FirstViolation;
    assert SettleRefusal(db, 0, 5, 2).None?;
  }
}
