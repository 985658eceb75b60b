/** A reservation is closed once, its keys are posted once, and abandoned holds come back. */
module BillingClosing {
  import opened Common
  import opened BillingModel
  import opened BillingInvariants
  import opened BillingLaws
  import Money

  // ---- the first close wins -------------------------------------------------

  /** A later state agrees with an earlier one about a hold and about the hold's ledger rows. */
  ghost predicate SameStory(db: Db, db': Db, i: nat) {
    i < |db.holds| && i < |db'.holds| && db'.holds[i] == db.holds[i] && RowsOf(db'.ledger, i) == RowsOf(db.ledger, i)
  }

  lemma PostElsewhere(db: Db, db': Db, row: LedgerRow, i: nat)
    requires i < |db.holds| && i < |db'.holds| && db'.holds[i] == db.holds[i]
    requires db'.ledger == db.ledger + [row] && row.resource != HoldOf(i)
    ensures SameStory(db, db', i)
  {
    RowsOfSnoc(db.ledger, row, i);
  }

  lemma {:induction false} RowsOfAppend(ledger: seq<LedgerRow>, rows: seq<LedgerRow>, i: nat)
    requires forall k :: 0 <= k < |rows| ==> rows[k].resource != HoldOf(i)
    ensures RowsOf(ledger + rows, i) == RowsOf(ledger, i)
    decreases |rows|
  {
    hide RowsOf;
    if rows == [] {
      assert ledger + rows == ledger;
    } else {
      RowsOfSnoc(ledger, rows[0], i);
      RowsOfAppend(ledger + [rows[0]], rows[1..], i);
      assert ledger + rows == ledger + [rows[0]] + rows[1..];
    }
  }

  ghost predicate IdsMatch(db: Db) {
    forall j :: 0 <= j < |db.holds| ==> db.holds[j].id == j
  }

  lemma SettleStepStays(db: Db, id: nat, actual: real, c: Charge, i: nat)
    requires i < |db.holds| && db.holds[i].status != Reserved && IdsMatch(db)
    ensures SameStory(db, SettleStep(db, id, actual, c).0, i)
  {
    if id < |db.holds| && id != i {
      RowsOfAppend(db.ledger, SettlementRows(db.holds[id], Money.Round(actual), c), i);
    }
  }

  lemma ReleaseStepStays(db: Db, id: nat, now: Time, i: nat)
    requires i < |db.holds| && db.holds[i].status != Reserved && IdsMatch(db)
    ensures SameStory(db, ReleaseStep(db, id, now).0, i)
    ensures IdsMatch(ReleaseStep(db, id, now).0)
  {
    if id < |db.holds| && id != i {
      RowsOfSnoc(db.ledger, ReleaseRow(db.holds[id], db.holds[id].estimated, now), i);
    }
  }

  lemma {:induction false} ReleaseAllStays(db: Db, ids: seq<nat>, now: Time, i: nat)
    requires i < |db.holds| && db.holds[i].status != Reserved && IdsMatch(db)
    ensures SameStory(db, ReleaseAll(db, ids, now).0, i)
    ensures IdsMatch(ReleaseAll(db, ids, now).0)
  {
    if ids != [] {
      ReleaseAllStays(db, ids[..|ids| - 1], now, i);
      ReleaseStepStays(ReleaseAll(db, ids[..|ids| - 1], now).0, ids[|ids| - 1], now, i);
    }
  }

  lemma WalletCallStays(db: Db, c: Call, i: nat)
    requires i < |db.holds|
    requires c.op.OpAddCredit? || c.op.OpDeductCredit? || c.op.OpRefund? || c.op.OpSetStatus? || c.op.OpBudget?
    ensures SameStory(db, Apply(db, c), i)
  {
    hide RowsOf, AddCreditStep, DeductCreditStep;
    match c.op
    case OpAddCredit(user, amount, reference, txId) =>
      var db1, row := GetWallet(db, user), TopUpRow(user, amount, reference, txId, c.now);
      AddCreditEnds(db, user, amount, reference, txId, c.now);
      PostElsewhere(db, CreditedDb(db1, CreditTx(db1, user, amount, reference, txId), row), row, i);
    case OpDeductCredit(user, amount, reference, txId) =>
      var db1, row := GetWallet(db, user), DebitRow(user, amount, reference, txId, c.now);
      DeductCreditEnds(db, user, amount, reference, txId, c.now);
      PostElsewhere(db, DebitedDb(db1, DebitTx(db1, user, amount, reference, txId), row), row, i);
    case OpRefund(user, original, txId) =>
      if RefundStep(db, user, original, txId, c.now).1.Done? {
        var t := db.txs[FindTx(db.txs, original).value];
        PostElsewhere(db, RefundedDb(db, RefundTx(db, t, txId), RefundRow(t, c.now)), RefundRow(t, c.now), i);
      }
    case OpSetStatus(_, _) =>
    case OpBudget(_) =>
  }

  lemma ApplyStays(db: Db, c: Call, i: nat)
    requires i < |db.holds| && db.holds[i].status != Reserved && IdsMatch(db)
    ensures SameStory(db, Apply(db, c), i)
  {
    match c.op
    case OpReserve(request) =>
      PostElsewhere(db, Opened(db, NewHold(db, request, c.now)), ReservationRow(NewHold(db, request, c.now)), i);
    case OpSettle(id, actual, kind, providerCost) => SettleStepStays(db, id, actual, Charge(kind, providerCost, c.now), i);
    case OpRelease(id) => ReleaseStepStays(db, id, c.now, i);
    case OpExpire(limit) => ReleaseAllStays(db, ExpiryBatch(db, limit, c.now), c.now, i);
    case _ => WalletCallStays(db, c, i);
  }

  /** Once a reservation is closed, no later sequence of calls changes it or posts another row about it:
      of all attempts to settle, release and expire it, only the first that succeeds has an effect. */
  lemma {:induction false} FirstCloseWins(db: Db, calls: seq<Call>, i: nat)
    requires Sound(db) && i < |db.holds| && db.holds[i].status != Reserved
    ensures SameStory(db, Run(db, calls), i)
    ensures Sound(Run(db, calls))
  {
    if calls != [] {
      var n := |calls| - 1;
      FirstCloseWins(db, calls[..n], i);
      var mid := Run(db, calls[..n]);
      ApplyKeepsSound(mid, calls[n]);
      forall j | 0 <= j < |mid.holds|
        ensures mid.holds[j].id == j
      {
        assert HoldSound(mid, j);
      }
      ApplyStays(mid, calls[n], i);
    }
  }

  /** At close the parts add up: a settled reservation charged and gave back the larger of what was first
      held and what was charged; a released one gave back exactly what was held. */
  lemma CloseBalances(budgets: map<Id, Budget>, limits: seq<SpendingLimit>, calls: seq<Call>, i: nat)
    requires i < |Run(Initial(budgets, limits), calls).holds|
    requires Run(Initial(budgets, limits), calls).holds[i].status != Reserved
    ensures var db := Run(Initial(budgets, limits), calls);
            var h, rows := db.holds[i], RowsOf(db.ledger, i);
            && |rows| >= 2 && rows[0].key == h.key + ":reservation"
            && (h.status == Settled ==> h.settled.Some? && h.settled.value + h.released == Max(rows[0].amount, h.settled.value))
            && (h.status == Released ==> h.released == rows[0].amount)
  {
    RunsAreSound(budgets, limits, calls);
    var db := Run(Initial(budgets, limits), calls);
    assert HoldSound(db, i) && History(db.holds[i], RowsOf(db.ledger, i));
  }

  // ---- ledger keys ----------------------------------------------------------

  /** Keys with different endings of the same length class, or of different reservations, never meet. */
  lemma SuffixesSeparate(a: string, b: string)
    ensures a + ":settled" == b + ":settled" ==> a == b
    ensures a + ":release" == b + ":release" ==> a == b
    ensures a + ":reservation" == b + ":reservation" ==> a == b
    ensures a + ":settled" != b + ":release"
    ensures a + ":settled" != b + ":reservation"
    ensures a + ":release" != b + ":reservation"
  {
    LastChar(a, ":settled");
    LastChar(a, ":release");
    LastChar(b, ":release");
    LastChar(b, ":reservation");
    SameSuffix(a, b, ":settled");
    SameSuffix(a, b, ":release");
    SameSuffix(a, b, ":reservation");
  }

  lemma LastChar(a: string, suffix: string)
    requires suffix != ""
    ensures |a + suffix| > 0 && (a + suffix)[|a + suffix| - 1] == suffix[|suffix| - 1]
  {
  }

  lemma SameSuffix(a: string, b: string, suffix: string)
    ensures a + suffix == b + suffix ==> a == b
  {
    if a + suffix == b + suffix {
      assert a == (a + suffix)[..|a|] && b == (b + suffix)[..|b|];
    }
  }

  /** The engine's own keys never clash: a row that blocks the closing of an open reservation, or the opening
      of a new one, was posted by a top-up, a debit or a refund. */
  lemma BlockingRowsAreForeign(db: Db, i: nat, k: nat)
    requires Sound(db) && i < |db.holds| && db.holds[i].status == Reserved && k < |db.ledger|
    requires db.ledger[k].key == db.holds[i].key + ":settled" || db.ledger[k].key == db.holds[i].key + ":release"
    ensures !db.ledger[k].resource.HoldOf?
  {
    var row := db.ledger[k];
    if row.resource.HoldOf? {
      var j := row.resource.hold;
      RowsOfMembers(db.ledger, j);
      var rows := RowsOf(db.ledger, j);
      assert row in rows;
      assert History(db.holds[j], rows) && History(db.holds[i], RowsOf(db.ledger, i));
      SuffixesSeparate(db.holds[j].key, db.holds[i].key);
      SuffixesSeparate(db.holds[i].key, db.holds[j].key);
      assert false;
    }
  }

  /** So a settlement of an open reservation within its estimate is refused only for such a foreign row. */
  lemma SettleWithinEstimateRefusedIff(db: Db, i: nat, actual: int, now: Time)
    requires Sound(db) && i < |db.holds| && db.holds[i].status == Reserved
    requires 0 <= actual <= db.holds[i].estimated
    ensures SettleRefusal(db, i, actual, now).Some? <==>
              exists k :: 0 <= k < |db.ledger| && !db.ledger[k].resource.HoldOf?
                && (db.ledger[k].key == db.holds[i].key + ":settled"
                    || (actual < db.holds[i].estimated && db.ledger[k].key == db.holds[i].key + ":release"))
  {
    assert HoldSound(db, i);
    var s, r := db.holds[i].key + ":settled", db.holds[i].key + ":release";
    forall k | 0 <= k < |db.ledger| && (db.ledger[k].key == s || db.ledger[k].key == r)
      ensures !db.ledger[k].resource.HoldOf?
    {
      BlockingRowsAreForeign(db, i, k);
    }
  }

  // ---- billing one operation ------------------------------------------------

  /** Reserve, then settle whatever reservation the key names. */
  function BillStep(db: Db, req: ReserveRequest, actual: real, c: Charge): (Db, Outcome<nat>) {
    var (db1, r) := ReserveStep(db, req, c.now);
    if r.Raised? then (db1, r) else SettleStep(db1, r.value, actual, c)
  }

  lemma ReserveFinds(db: Db, req: ReserveRequest, now: Time)
    requires ReserveStep(db, req, now).1.Done?
    ensures var (db', r) := ReserveStep(db, req, now);
            r.value < |db'.holds| && db'.holds[r.value].key == req.key
  {
    hide FirstViolation, HasKey;
  }

  lemma SettleEnds(db: Db, id: nat, actual: real, c: Charge)
    requires SettleStep(db, id, actual, c).1.Done?
    ensures var (db', r) := SettleStep(db, id, actual, c);
            r == Done(id) && id < |db.holds| && |db'.holds| == |db.holds|
            && db'.holds[id].key == db.holds[id].key && db'.holds[id].status != Reserved
  {
    hide SettlementRows, FirstViolation, HasKey;
  }

  lemma ReserveAgain(db: Db, req: ReserveRequest, now: Time, i: nat)
    requires Money.Round(req.amount) > 0 && i < |db.holds| && db.holds[i].key == req.key
    requires forall j, k :: 0 <= j < k < |db.holds| ==> db.holds[j].key != db.holds[k].key
    ensures ReserveStep(db, req, now) == (db, Done(i))
  {
    hide FirstViolation, HasKey, Opened;
    var found := FindHold(db.holds, req.key).value;
    assert found < i || found == i || i < found;
  }

  /** Billing again under the same key, whatever the amounts, returns the first bill and changes nothing. */
  lemma BillTwice(db: Db, req: ReserveRequest, actual: real, c: Charge, req2: ReserveRequest, actual2: real, c2: Charge)
    requires Sound(db)
    requires BillStep(db, req, actual, c).1.Done?
    requires req2.key == req.key && Money.Round(req2.amount) > 0
    ensures BillStep(BillStep(db, req, actual, c).0, req2, actual2, c2) == BillStep(db, req, actual, c)
  {
    hide ReserveStep, WalletsSound, HistorySound, KeysUnique, RefundsKnown, TxsSound;
    var (db1, r) := ReserveStep(db, req, c.now);
    ReserveFinds(db, req, c.now);
    ReserveKeepsSound(db, req, c.now);
    SettleKeepsSound(db1, r.value, actual, c);
    SettleEnds(db1, r.value, actual, c);
    var db2 := SettleStep(db1, r.value, actual, c).0;
    ReserveAgain(db2, req2, c2.now, r.value);
  }

  /** A bill under a new key spends exactly the actual amount. */
  lemma BillCharges(db: Db, req: ReserveRequest, actual: real, c: Charge)
    requires NewKey(db, req.key) && BillStep(db, req, actual, c).1.Done?
    ensures var (db', o) := BillStep(db, req, actual, c); BilledFor(db, db', req, Money.Round(actual), c, o.value)
  {
    hide ReserveStep, SettleStep, BilledFor;
    var (mid, r) := ReserveStep(db, req, c.now);
    ReserveDoes(db, req, c.now);
    SettleDoes(mid, r.value, actual, c);
    assert IsOpen(mid, r.value);
    ReserveThenSettle(db, mid, SettleStep(mid, r.value, actual, c).0, req, c, Money.Round(actual), r.value);
  }

  // ---- expiry ---------------------------------------------------------------

  ghost predicate OldestFirst(holds: seq<Hold>, ids: seq<nat>) {
    && (forall k :: 0 <= k < |ids| ==> ids[k] < |holds|)
    && (forall j, k :: 0 <= j <= k < |ids| ==> holds[ids[j]].expiresAt <= holds[ids[k]].expiresAt)
  }

  lemma SnocKeepsOrder(holds: seq<Hold>, ids: seq<nat>, id: nat)
    requires OldestFirst(holds, ids) && id < |holds|
    requires forall k :: 0 <= k < |ids| ==> holds[ids[k]].expiresAt <= holds[id].expiresAt
    ensures OldestFirst(holds, ids + [id])
  {
  }

  lemma {:induction false} InsertKeepsOrder(holds: seq<Hold>, ids: seq<nat>, id: nat)
    requires OldestFirst(holds, ids) && id < |holds|
    ensures OldestFirst(holds, InsertByExpiry(holds, ids, id))
  {
    var n := |ids| - 1;
    if ids == [] || holds[ids[n]].expiresAt <= holds[id].expiresAt {
      SnocKeepsOrder(holds, ids, id);
    } else {
      InsertKeepsOrder(holds, ids[..n], id);
      var r := InsertByExpiry(holds, ids[..n], id);
      forall k | 0 <= k < |r|
        ensures holds[r[k]].expiresAt <= holds[ids[n]].expiresAt
      {
        assert r[k] == id || r[k] in ids[..n];
      }
      SnocKeepsOrder(holds, r, ids[n]);
    }
  }

  lemma {:induction false} InsertKeepsMembers(holds: seq<Hold>, ids: seq<nat>, id: nat, x: nat)
    requires id < |holds| && forall k :: 0 <= k < |ids| ==> ids[k] < |holds|
    requires x == id || x in ids
    ensures x in InsertByExpiry(holds, ids, id)
  {
    var n := |ids| - 1;
    if ids != [] && !(holds[ids[n]].expiresAt <= holds[id].expiresAt) {
      assert ids == ids[..n] + [ids[n]];
      if x == id || x in ids[..n] {
        InsertKeepsMembers(holds, ids[..n], id, x);
      }
    }
  }

  lemma {:induction false} ExpiredIdsOrdered(holds: seq<Hold>, n: nat, now: Time)
    requires n <= |holds|
    ensures OldestFirst(holds, ExpiredIds(holds, n, now))
  {
    if n > 0 {
      ExpiredIdsOrdered(holds, n - 1, now);
      if Expired(holds[n - 1], now) {
        InsertKeepsOrder(holds, ExpiredIds(holds, n - 1, now), n - 1);
      }
    }
  }

  lemma {:induction false} ExpiredIdsComplete(holds: seq<Hold>, n: nat, now: Time, x: nat)
    requires x < n <= |holds| && Expired(holds[x], now)
    ensures x in ExpiredIds(holds, n, now)
  {
    if x < n - 1 {
      ExpiredIdsComplete(holds, n - 1, now, x);
    }
    if Expired(holds[n - 1], now) {
      InsertKeepsMembers(holds, ExpiredIds(holds, n - 1, now), n - 1, x);
    }
  }

  /** A sweep without errors closes exactly its batch and reopens nothing. */
  lemma {:induction false} SweepCloses(db: Db, ids: seq<nat>, now: Time)
    requires forall k :: 0 <= k < |ids| ==> ids[k] < |db.holds|
    requires ReleaseAll(db, ids, now).1.Done?
    ensures var (db', r) := ReleaseAll(db, ids, now);
            && r.value == |ids|
            && |db'.holds| == |db.holds|
            && (forall i: nat :: i in ids ==> db'.holds[i].status != Reserved)
            && (forall i: nat :: i < |db.holds| && i !in ids ==> db'.holds[i] == db.holds[i])
  {
    if ids != [] {
      var n := |ids| - 1;
      SweepCloses(db, ids[..n], now);
      assert ids == ids[..n] + [ids[n]];
    }
  }

  /** A sweep with room for every expired reservation leaves none open; a smaller one takes the oldest. */
  lemma ExpireClears(db: Db, limit: nat, now: Time)
    requires ExpireStep(db, limit, now).1.Done?
    ensures var (db', r) := ExpireStep(db, limit, now);
            var expired := ExpiredIds(db.holds, |db.holds|, now);
            && r.value == Min(|expired|, limit)
            && |db'.holds| == |db.holds|
            && (limit >= |expired| ==> forall i :: 0 <= i < |db'.holds| ==> !Expired(db'.holds[i], now))
            && (forall i, j | 0 <= i < |db.holds| && 0 <= j < |db.holds| && Expired(db'.holds[i], now)
                              && Expired(db.holds[j], now) && db'.holds[j].status != Reserved ::
                  db.holds[j].expiresAt <= db.holds[i].expiresAt)
  {
    hide ReleaseAll, ExpiredIds;
    var expired := ExpiredIds(db.holds, |db.holds|, now);
    var batch := ExpiryBatch(db, limit, now);
    var db' := ExpireStep(db, limit, now).0;
    SweepCloses(db, batch, now);
    ExpiredIdsOrdered(db.holds, |db.holds|, now);
    forall i | 0 <= i < |db.holds| && Expired(db'.holds[i], now)
      ensures exists p :: |batch| <= p < |expired| && expired[p] == i
    {
      ExpiredIdsComplete(db.holds, |db.holds|, now, i);
      var p :| 0 <= p < |expired| && expired[p] == i;
      assert batch == expired[..|batch|];
      assert p < |batch| ==> i in batch;
    }
    forall i, j | 0 <= i < |db.holds| && 0 <= j < |db.holds|
                  && Expired(db'.holds[i], now) && Expired(db.holds[j], now) && db'.holds[j].status != Reserved
      ensures db.holds[j].expiresAt <= db.holds[i].expiresAt
    {
      var p :| |batch| <= p < |expired| && expired[p] == i;
      assert j in batch;
      var q :| 0 <= q < |batch| && batch[q] == j;
      assert expired[q] == j;
    }
  }
}
