/** The billing services as calls on the database tables.  A call works on row copies and writes the
    tables when it commits, so a call that raises has changed nothing it had not committed. */
module BillingEngine {
  import opened Common
  import opened BillingModel
  import opened BillingClosing
  import opened BillingLaws
  import opened LimitPeriods
  import opened Reconciliation
  import BillingInvariants
  import Money

  class BillingTables {
    var wallets: map<Id, Wallet>
    var budgets: map<Id, Budget>
    var holds: seq<Hold>
    var ledger: seq<LedgerRow>
    var txs: seq<WalletTx>
    const limits: seq<SpendingLimit>

    function Snapshot(): Db
      reads this
    {
      Db(wallets, budgets, holds, ledger, txs, limits)
    }

    constructor (budgets: map<Id, Budget>, limits: seq<SpendingLimit>)
      ensures Snapshot() == Initial(budgets, limits)
    {
      this.wallets, this.budgets, this.holds, this.ledger, this.txs := map[], budgets, [], [], [];
      this.limits := limits;
    }

    /** Go through the scopes of a charge and the limits of each, and stop at the first without room. */
    method CheckLimits(amount: int, scopes: Scopes, now: Time, exclude: Option<nat>) returns (refused: Option<Error>)
      ensures refused == FirstViolation(Snapshot(), 0, amount, scopes, now, exclude)
      ensures refused.None? <==> Admits(Snapshot(), amount, scopes, now, exclude)
      ensures refused.None? <==>
                forall i :: 0 <= i < |limits| ==> !Violated(Snapshot(), limits[i], amount, scopes, now, exclude)
      ensures refused.Some? ==>
                exists i :: 0 <= i < |limits| && Reported(Snapshot(), i, amount, scopes, now, exclude, refused.value)
    {
      CheckByCalendar(Snapshot(), amount, scopes, now, exclude);
      hide Violated, Reported;
      hide Sum, PeriodStart;
      CheckExact(Snapshot(), amount, scopes, now, exclude);
      for k := 0 to |SCOPE_ORDER|
        invariant FirstViolation(Snapshot(), 0, amount, scopes, now, exclude)
               == FirstViolation(Snapshot(), k, amount, scopes, now, exclude)
      {
        var kind := SCOPE_ORDER[k];
        var scopeId := scopes.Get(kind);
        for i := 0 to |limits|
          invariant FirstInScope(Snapshot(), kind, 0, amount, scopes, now, exclude)
                 == FirstInScope(Snapshot(), kind, i, amount, scopes, now, exclude)
        {
          var l := limits[i];
          if scopeId.Some? && l.scope == kind && l.scopeId == scopeId.value && l.active {
            var start := PeriodStart(l.period, now);
            var spent := Sum(ledger, SpendUnder(kind, scopeId.value, start));
            var reserved := Sum(holds, HeldUnder(kind, scopeId.value, start, exclude));
            var projected := spent + reserved + amount;
            if projected > l.amount {
              return Some(LimitExceeded(kind, l.period, l.amount, projected));
            }
          }
        }
      }
      return None;
    }

    method Reserve(req: ReserveRequest, now: Time) returns (o: Outcome<nat>)
      modifies this
      ensures (Snapshot(), o) == ReserveStep(old(Snapshot()), req, now)
      ensures ReserveLaw(old(Snapshot()), Snapshot(), o, req, now)
    {
      hide ReserveLaw, Reported, Violated;
      ReserveDoes(Snapshot(), req, now);
      var amount := Money.Round(req.amount);
      if amount <= 0 {
        return Raised(NotPositive);
      }
      var existing := FindHold(holds, req.key);
      if existing.Some? {
        return Done(existing.value);
      }
      var refused := CheckLimits(amount, req.scopes, now, None);
      if refused.Some? {
        return Raised(refused.value);
      }
      var user := req.scopes.user;
      var wallet := WalletOrNew(Snapshot(), user);
      if wallet.status != Active {
        return Raised(WalletNotActive);
      }
      if wallet.balance < amount {
        return Raised(InsufficientBalance(amount, wallet.balance));
      }
      wallet := wallet.(balance := wallet.balance - amount);
      wallet := wallet.(reserved := wallet.reserved + amount);
      var reservation := NewHold(Snapshot(), req, now);
      var row := ReservationRow(reservation);
      if HasKey(ledger, row.key) {
        return Raised(IntegrityError);
      }
      wallets := wallets[user := wallet];
      holds := holds + [reservation];
      ledger := ledger + [row];
      return Done(reservation.id);
    }

    /** The budgets after a settlement. */
    method ChargedBudgets(user: Id, actual: int) returns (charged: map<Id, Budget>)
      ensures charged == ChargeBudget(budgets, user, actual)
    {
      charged := budgets;
      if user in budgets {
        var budget := budgets[user];
        budget := budget.(currentSpend := budget.currentSpend + actual);
        if budget.monthlyLimit.Some? && budget.currentSpend >= budget.monthlyLimit.value {
          budget := budget.(limitReached := true);
        }
        charged := budgets[user := budget];
      }
    }

    /** Post the charge and, when part of the hold is unused, its return; none is posted if a key is taken. */
    method PostSettlement(h: Hold, actual: int, release: int, c: Charge) returns (posted: Option<seq<LedgerRow>>)
      ensures posted.None? <==> HasKey(ledger, h.key + ":settled") || (release > 0 && HasKey(ledger, h.key + ":release"))
      ensures posted.Some? ==>
                posted.value == if release > 0 then ledger + [SettledRow(h, actual, c)] + [ReleaseRow(h, release, c.now)]
                                else ledger + [SettledRow(h, actual, c)]
    {
      var row := SettledRow(h, actual, c);
      if HasKey(ledger, row.key) {
        return None;
      }
      var rows := ledger + [row];
      if release > 0 {
        var remainder := ReleaseRow(h, release, c.now);
        BillingInvariants.KeysDiffer(h.key, ":settled", ":release");
        OtherKey(ledger, row, remainder.key);
        if HasKey(rows, remainder.key) {
          return None;
        }
        rows := rows + [remainder];
      }
      return Some(rows);
    }

    /** Hold the additional amount too, if limits and balance allow it. */
    method CoverOverrun(before: Wallet, held: Hold, actual: int, now: Time)
      returns (refused: Option<Error>, wallet: Wallet, reservation: Hold)
      requires actual > held.estimated
      ensures var additional := actual - held.estimated;
              var violated := FirstViolation(Snapshot(), 0, additional, held.scopes, now, Some(held.id));
              refused == if violated.Some? then violated
                         else if before.balance < additional then Some(InsufficientBalance(actual, before.balance + held.estimated))
                         else None
      ensures refused.None? ==>
                && wallet == before.(balance := before.balance - (actual - held.estimated),
                                     reserved := before.reserved + (actual - held.estimated))
                && reservation == held.(estimated := actual)
    {
      hide FirstViolation, Reported, Violated;
      wallet, reservation := before, held;
      var additional := actual - reservation.estimated;
      refused := CheckLimits(additional, reservation.scopes, now, Some(reservation.id));
      if refused.Some? {
        return;
      }
      if wallet.balance < additional {
        refused := Some(InsufficientBalance(actual, wallet.balance + reservation.estimated));
        return;
      }
      wallet := wallet.(balance := wallet.balance - additional);
      wallet := wallet.(reserved := wallet.reserved + additional);
      reservation := reservation.(estimated := reservation.estimated + additional);
    }

    method Settle(id: nat, actualAmount: real, c: Charge) returns (o: Outcome<nat>)
      modifies this
      ensures (Snapshot(), o) == SettleStep(old(Snapshot()), id, actualAmount, c)
      ensures SettleLaw(old(Snapshot()), Snapshot(), o, id, Money.Round(actualAmount), c)
    {
      SettleDoes(Snapshot(), id, actualAmount, c);
      hide SettleLaw, FirstViolation, HasKey, SettlementRows, ChargeBudget;
      if id >= |holds| {
        return Raised(NoResultFound);
      }
      var reservation := holds[id];
      if reservation.status != Reserved {
        return Done(id);
      }
      var actual := Money.Round(actualAmount);
      if actual < 0 {
        return Raised(NegativeActual);
      }
      var user := reservation.scopes.user;
      if user !in wallets {
        return Raised(NoResultFound);
      }
      var wallet := wallets[user];
      if actual > reservation.estimated {
        var refused;
        refused, wallet, reservation := CoverOverrun(wallet, reservation, actual, c.now);
        if refused.Some? {
          return Raised(refused.value);
        }
      }
      var release := reservation.estimated - actual;
      wallet := wallet.(reserved := wallet.reserved - reservation.estimated);
      wallet := wallet.(balance := wallet.balance + release);
      wallet := wallet.(spent := wallet.spent + actual);
      var charged := ChargedBudgets(user, actual);
      reservation := reservation.(settled := Some(actual));
      reservation := reservation.(released := release);
      reservation := reservation.(status := Settled);
      var posted := PostSettlement(reservation, actual, release, c);
      if posted.None? {
        return Raised(IntegrityError);
      }
      PostedRows(ledger, holds[id], actual, c);
      wallets := wallets[user := wallet];
      budgets := charged;
      holds := holds[id := reservation];
      ledger := posted.value;
      return Done(id);
    }

    method Release(id: nat, now: Time) returns (o: Outcome<nat>)
      modifies this
      ensures (Snapshot(), o) == ReleaseStep(old(Snapshot()), id, now)
      ensures ReleaseLaw(old(Snapshot()), Snapshot(), o, id, now)
    {
      ReleaseDoes(Snapshot(), id, now);
      hide ReleaseLaw;
      if id >= |holds| {
        return Raised(NoResultFound);
      }
      var reservation := holds[id];
      if reservation.status != Reserved {
        return Done(id);
      }
      var user := reservation.scopes.user;
      if user !in wallets {
        return Raised(NoResultFound);
      }
      var wallet := wallets[user];
      wallet := wallet.(reserved := wallet.reserved - reservation.estimated);
      wallet := wallet.(balance := wallet.balance + reservation.estimated);
      reservation := reservation.(released := reservation.estimated);
      reservation := reservation.(status := Released);
      var row := ReleaseRow(reservation, reservation.estimated, now);
      if HasKey(ledger, row.key) {
        return Raised(IntegrityError);
      }
      wallets := wallets[user := wallet];
      holds := holds[id := reservation];
      ledger := ledger + [row];
      return Done(id);
    }

    /** Release the oldest expired reservations, one commit each, and count them. */
    method ExpireReservations(limit: nat, now: Time) returns (o: Outcome<nat>)
      modifies this
      ensures (Snapshot(), o) == ExpireStep(old(Snapshot()), limit, now)
    {
      ghost var start := Snapshot();
      var ids := ExpiryBatch(Snapshot(), limit, now);
      var released := 0;
      while released < |ids|
        invariant 0 <= released <= |ids|
        invariant (Snapshot(), Done(released)) == ReleaseAll(start, ids[..released], now)
      {
        assert ids[..released + 1][..released] == ids[..released];
        var one := Release(ids[released], now);
        if one.Raised? {
          SweepStops(start, ids, released + 1, now);
          return Raised(one.error);
        }
        released := released + 1;
      }
      assert ids[..released] == ids;
      return Done(released);
    }

    /** Reserve, run the operation elsewhere, and settle whatever reservation came back. */
    method BillOperation(req: ReserveRequest, actual: real, c: Charge) returns (o: Outcome<nat>)
      modifies this
      ensures (Snapshot(), o) == BillStep(old(Snapshot()), req, actual, c)
      ensures NewKey(old(Snapshot()), req.key) && o.Done? ==>
                BilledFor(old(Snapshot()), Snapshot(), req, Money.Round(actual), c, o.value)
    {
      hide BilledFor, NewKey, ReserveStep, SettleStep;
      ghost var before := Snapshot();
      o := Reserve(req, c.now);
      if o.Done? {
        ghost var mid, id := Snapshot(), o.value;
        o := Settle(o.value, actual, c);
        if o.Done? && NewKey(before, req.key) {
          assert IsOpen(mid, id);
          ReserveThenSettle(before, mid, Snapshot(), req, c, Money.Round(actual), id);
        }
      }
    }

    method AddCredit(user: Id, amount: int, reference: Option<string>, txId: Id, now: Time) returns (o: Outcome<Id>)
      modifies this
      ensures (Snapshot(), o) == AddCreditStep(old(Snapshot()), user, amount, reference, txId, now)
      ensures CreditLaw(old(Snapshot()), Snapshot(), o, user, amount, reference, txId)
    {
      CreditDoes(Snapshot(), user, amount, reference, txId, now);
      hide CreditLaw;
      if amount <= 0 {
        return Raised(NotPositive);
      }
      EnsureWallet(user);
      var known := WalletCallEnd(Snapshot(), user, reference);
      if known.Some? {
        return known.value;
      }
      var wallet := wallets[user];
      var before := wallet.balance;
      var after := before + amount;
      var transaction := WalletTx(txId, user, Credit, amount, before, after, reference);
      wallet := wallet.(balance := after);
      wallet := wallet.(topups := wallet.topups + amount);
      var cleared := budgets;
      if user in budgets && budgets[user].limitReached && after > 0 {
        cleared := budgets[user := budgets[user].(limitReached := false, currentSpend := 0)];
      }
      var row := TopUpRow(user, amount, reference, txId, now);
      if Clashes(Snapshot(), txId, row) {
        return Raised(IntegrityError);
      }
      wallets := wallets[user := wallet];
      budgets := cleared;
      txs := txs + [transaction];
      ledger := ledger + [row];
      return Done(txId);
    }

    method DeductCredit(user: Id, amount: int, reference: Option<string>, txId: Id, now: Time) returns (o: Outcome<Id>)
      modifies this
      ensures (Snapshot(), o) == DeductCreditStep(old(Snapshot()), user, amount, reference, txId, now)
      ensures DebitLaw(old(Snapshot()), Snapshot(), o, user, amount, reference, txId)
    {
      DebitDoes(Snapshot(), user, amount, reference, txId, now);
      hide DebitLaw;
      if amount <= 0 {
        return Raised(NotPositive);
      }
      EnsureWallet(user);
      var known := WalletCallEnd(Snapshot(), user, reference);
      if known.Some? {
        return known.value;
      }
      var wallet := wallets[user];
      if wallet.balance < amount {
        return Raised(InsufficientBalance(amount, wallet.balance));
      }
      var before := wallet.balance;
      var after := before - amount;
      var transaction := WalletTx(txId, user, Debit, amount, before, after, reference);
      wallet := wallet.(balance := after);
      wallet := wallet.(spent := wallet.spent + amount);
      var charged := budgets;
      if user in budgets && budgets[user].monthlyLimit.Some? {
        var budget := budgets[user];
        budget := budget.(currentSpend := budget.currentSpend + amount);
        if budget.currentSpend >= budget.monthlyLimit.value && !budget.limitReached {
          budget := budget.(limitReached := true);
        }
        charged := budgets[user := budget];
      }
      var row := DebitRow(user, amount, reference, txId, now);
      if Clashes(Snapshot(), txId, row) {
        return Raised(IntegrityError);
      }
      wallets := wallets[user := wallet];
      budgets := charged;
      txs := txs + [transaction];
      ledger := ledger + [row];
      return Done(txId);
    }

    method RefundTransaction(user: Id, original: Id, txId: Id, now: Time) returns (o: Outcome<Id>)
      modifies this
      ensures (Snapshot(), o) == RefundStep(old(Snapshot()), user, original, txId, now)
      ensures RefundLaw(old(Snapshot()), Snapshot(), o, user, original, txId)
    {
      RefundDoes(Snapshot(), user, original, txId, now);
      hide RefundLaw;
      var found := FindTx(txs, original);
      if found.None? {
        return Raised(TransactionNotFound);
      }
      var debit := txs[found.value];
      if debit.kind != Debit {
        return Raised(NotADebit);
      }
      if AlreadyRefundedIn(ledger, original) {
        return Raised(AlreadyRefunded);
      }
      if user !in wallets || user != debit.wallet {
        return Raised(WalletMismatch);
      }
      var wallet := wallets[user];
      var before := wallet.balance;
      var after := before + debit.amount;
      var transaction := WalletTx(txId, user, Refund, debit.amount, before, after, Some(original));
      wallet := wallet.(balance := after);
      wallet := wallet.(spent := Max(0, wallet.spent - debit.amount));
      var cleared := budgets;
      if user in budgets && budgets[user].limitReached && after > 0 {
        var budget := budgets[user];
        cleared := budgets[user := budget.(limitReached := false, currentSpend := Max(0, budget.currentSpend - debit.amount))];
      }
      var row := RefundRow(debit, now);
      if Clashes(Snapshot(), txId, row) {
        return Raised(IntegrityError);
      }
      wallets := wallets[user := wallet];
      budgets := cleared;
      txs := txs + [transaction];
      ledger := ledger + [row];
      return Done(txId);
    }

    method CreateOrUpdateBudget(user: Id, limit: int)
      modifies this
      ensures Snapshot() == old(Snapshot()).(budgets := PutStep(old(budgets), user, limit))
      ensures limit > 0 ==> user in budgets && budgets[user].monthlyLimit == Some(limit)
      ensures limit > 0 ==> budgets[user].currentSpend == (if user in old(budgets) then old(budgets)[user].currentSpend else 0)
      ensures forall u :: u in old(budgets) && (u != user || limit <= 0) ==> u in budgets && budgets[u] == old(budgets)[u]
    {
      if limit <= 0 {
        return;
      }
      if user in budgets {
        budgets := budgets[user := budgets[user].(monthlyLimit := Some(limit))];
        return;
      }
      budgets := budgets[user := Budget(Some(limit), 0, false)];
    }

    method UpdateBudget(user: Id, limit: Option<int>)
      modifies this
      ensures Snapshot() == old(Snapshot()).(budgets := PatchStep(old(budgets), user, limit))
    {
      if limit.Some? && limit.value <= 0 {
        return;
      }
      if user in budgets {
        var budget := budgets[user];
        if limit.Some? {
          budget := budget.(monthlyLimit := limit);
        }
        budgets := budgets[user := budget];
      }
    }

    /** Whether the estimate stays below the monthly limit. */
    method CheckBudget(user: Id, estimate: int) returns (ok: bool)
      modifies this
      ensures (budgets, ok) == CheckStep(old(budgets), user, estimate)
      ensures Snapshot() == old(Snapshot()).(budgets := budgets)
      ensures ok <==> !(user in old(budgets) && old(budgets)[user].monthlyLimit.Some?
                        && old(budgets)[user].currentSpend + estimate >= old(budgets)[user].monthlyLimit.value)
      ensures if ok then budgets == old(budgets) else budgets == old(budgets)[user := old(budgets)[user].(limitReached := true)]
    {
      if user !in budgets || budgets[user].monthlyLimit.None? {
        return true;
      }
      var budget := budgets[user];
      var projected := budget.currentSpend + estimate;
      if projected >= budget.monthlyLimit.value {
        if !budget.limitReached {
          budgets := budgets[user := budget.(limitReached := true)];
        }
        assert old(budgets)[user := budget.(limitReached := true)] == budgets;
        return false;
      }
      return true;
    }

    /** The monthly task. */
    method ResetMonthlyBudgets()
      modifies this
      ensures Snapshot() == old(Snapshot()).(budgets := ResetStep(old(budgets)))
    {
      budgets := map u | u in budgets ::
        if budgets[u].monthlyLimit.Some? then budgets[u].(currentSpend := 0, limitReached := false) else budgets[u];
    }

    /** The wallet is created on first use and committed at once. */
    method EnsureWallet(user: Id)
      modifies this
      ensures Snapshot() == GetWallet(old(Snapshot()), user)
    {
      if user !in wallets {
        wallets := wallets[user := EMPTY_WALLET];
      }
    }

    /** Compare a wallet with the ledger and the open reservations. */
    method ReconcileWallet(user: Id, now: Time) returns (mismatches: seq<Mismatch>)
      ensures mismatches == Reconcile(Snapshot(), user, now)
    {
      mismatches := [];
      if user !in wallets {
        return;
      }
      var wallet := wallets[user];
      var settledSpend := Sum(ledger, SpendOf(user));
      var reserved := Sum(holds, BillingInvariants.OpenHold(user));
      if wallet.reserved != reserved {
        mismatches := mismatches + [ReservedBalance];
      }
      if wallet.spent < settledSpend {
        mismatches := mismatches + [TotalSpent];
      }
      if wallet.balance < 0 || wallet.reserved < 0 {
        mismatches := mismatches + [NegativeBalance];
      }
      if HasExpired(Snapshot(), user, now) {
        mismatches := mismatches + [ExpiredReservations];
      }
    }
  }

  /** Posting one row does not use up another key. */
  lemma OtherKey(ledger: seq<LedgerRow>, row: LedgerRow, key: string)
    requires row.key != key
    ensures HasKey(ledger + [row], key) <==> HasKey(ledger, key)
  {
    if HasKey(ledger, key) {
      var k :| 0 <= k < |ledger| && ledger[k].key == key;
      assert (ledger + [row])[k].key == key;
    }
  }

  lemma PostedRows(ledger: seq<LedgerRow>, h: Hold, actual: int, c: Charge)
    ensures ledger + SettlementRows(h, actual, c)
         == if actual < h.estimated then ledger + [SettledRow(h, actual, c)] + [ReleaseRow(h, h.estimated - actual, c.now)]
            else ledger + [SettledRow(h, actual, c)]
  {
  }

  /** A sweep that raised at some prefix of its batch ends there. */
  lemma {:induction false} SweepStops(db: Db, ids: seq<nat>, n: nat, now: Time)
    requires n <= |ids| && ReleaseAll(db, ids[..n], now).1.Raised?
    ensures ReleaseAll(db, ids, now) == ReleaseAll(db, ids[..n], now)
    decreases |ids| - n
  {
    if n < |ids| {
      assert ids[..n + 1][..n] == ids[..n];
      SweepStops(db, ids, n + 1, now);
    } else {
      assert ids[..n] == ids;
    }
  }
}
