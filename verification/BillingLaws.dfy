/** What each accepted call does, told field by field from the rows before to the rows after. */
module BillingLaws {
  import opened Common
  import opened BillingModel
  import Money

  // ---- wallets and budgets --------------------------------------------------

  function WalletBefore(db: Db, user: Id): Wallet {
    if user in db.wallets then db.wallets[user] else Wallet(0, 0, 0, 0, Active)
  }

  /** Only this user's wallet changes, by exactly these amounts. */
  ghost predicate Moves(db: Db, db': Db, user: Id, balance: int, reserved: int, spent: int, topups: int) {
    && db'.wallets.Keys == db.wallets.Keys + {user}
    && (forall u :: u in db.wallets && u != user ==> db'.wallets[u] == db.wallets[u])
    && var w, w' := WalletBefore(db, user), db'.wallets[user];
       && w'.balance == w.balance + balance && w'.reserved == w.reserved + reserved
       && w'.spent == w.spent + spent && w'.topups == w.topups + topups && w'.status == w.status
  }

  /** Only this user's budget changes: its spend grows by the amount, and the flag is set when it was, or when a
      limit is reached. */
  ghost predicate Charges(db: Db, db': Db, user: Id, amount: int) {
    && db'.budgets.Keys == db.budgets.Keys
    && (forall u :: u in db.budgets && u != user ==> db'.budgets[u] == db.budgets[u])
    && (user in db.budgets ==>
          var b, b' := db.budgets[user], db'.budgets[user];
          && b'.currentSpend == b.currentSpend + amount && b'.monthlyLimit == b.monthlyLimit
          && (b'.limitReached <==> b.limitReached || (b.monthlyLimit.Some? && b.currentSpend + amount >= b.monthlyLimit.value)))
  }

  /** Only this row changes among the reservations. */
  ghost predicate OnlyHold(db: Db, db': Db, id: nat) {
    |db'.holds| == |db.holds| && forall i :: 0 <= i < |db.holds| && i != id ==> db'.holds[i] == db.holds[i]
  }

  ghost predicate Posts(db: Db, db': Db, rows: nat) {
    |db'.ledger| == |db.ledger| + rows && db'.ledger[..|db.ledger|] == db.ledger
  }

  // ---- reservations ---------------------------------------------------------

  /** A new reservation moves its amount from the balance to the reserved part, and its row and ledger row say for
      whom, under which key and until when. */
  ghost predicate ReservedFor(db: Db, db': Db, req: ReserveRequest, now: Time, id: nat) {
    var amount := Money.Round(req.amount);
    && 0 < amount <= WalletBefore(db, req.scopes.user).balance && WalletBefore(db, req.scopes.user).status == Active
    && Moves(db, db', req.scopes.user, -amount, amount, 0, 0) && db'.budgets == db.budgets && db'.txs == db.txs
    && id == |db.holds| && |db'.holds| == id + 1 && db'.holds[..id] == db.holds
    && HoldFor(db'.holds[id], req, now) && Posts(db, db', 1) && HoldRow(db'.ledger[|db.ledger|], req, now)
  }

  ghost predicate HoldFor(h: Hold, req: ReserveRequest, now: Time) {
    && h.scopes == req.scopes && h.key == req.key && h.estimated == Money.Round(req.amount) && h.status == Reserved
    && h.createdAt == now && h.expiresAt == now + Max(1, req.ttlSeconds) * 1_000_000
  }

  ghost predicate HoldRow(row: LedgerRow, req: ReserveRequest, now: Time) {
    && row.kind == Reservation && row.key == req.key + ":reservation" && row.scopes == req.scopes
    && row.amount == Money.Round(req.amount) && row.status == RowReserved && row.createdAt == now
  }

  /** A settled reservation spends exactly the actual amount and gives back the rest of the hold, or takes what is
      missing from the balance. */
  ghost predicate SettledFor(db: Db, db': Db, id: nat, actual: int, c: Charge)
    requires id < |db.holds|
  {
    var h := db.holds[id];
    && Moves(db, db', h.scopes.user, h.estimated - actual, -h.estimated, actual, 0)
    && Charges(db, db', h.scopes.user, actual) && db'.txs == db.txs
    && OnlyHold(db, db', id)
    && db'.holds[id] == h.(status := Settled, settled := Some(actual), released := Max(0, h.estimated - actual),
                           estimated := Max(h.estimated, actual))
    && Posts(db, db', if actual < h.estimated then 2 else 1)
    && ChargeRow(db'.ledger[|db.ledger|], h.scopes, h.key, actual, c)
    && (actual < h.estimated ==> ReturnRow(db'.ledger[|db.ledger| + 1], h, h.estimated - actual, c.now))
  }

  ghost predicate ReturnRow(row: LedgerRow, h: Hold, amount: int, now: Time) {
    && row.kind == Reversal && row.key == h.key + ":release" && row.scopes == h.scopes && row.amount == amount
    && row.status == RowReleased && row.createdAt == now
  }

  ghost predicate ChargeRow(row: LedgerRow, scopes: Scopes, key: string, actual: int, c: Charge) {
    && row.kind == c.kind && row.key == key + ":settled" && row.scopes == scopes && row.amount == actual
    && row.providerCost == Money.Round(c.providerCost) && row.markup == Money.Round(actual as real - c.providerCost)
    && row.status == RowSettled && row.createdAt == c.now
  }

  /** A released reservation gives the whole hold back. */
  ghost predicate ReleasedFor(db: Db, db': Db, id: nat, now: Time)
    requires id < |db.holds|
  {
    var h := db.holds[id];
    && Moves(db, db', h.scopes.user, h.estimated, -h.estimated, 0, 0) && db'.budgets == db.budgets && db'.txs == db.txs
    && OnlyHold(db, db', id) && db'.holds[id] == h.(status := Released, released := h.estimated)
    && Posts(db, db', 1)
    && ReturnRow(db'.ledger[|db.ledger|], h, h.estimated, now)
  }

  predicate IsOpen(db: Db, id: nat) {
    id < |db.holds| && db.holds[id].status == Reserved
  }

  predicate NewKey(db: Db, key: string) {
    forall i :: 0 <= i < |db.holds| ==> db.holds[i].key != key
  }

  /** Under a new key a reservation is made in full, or nothing changes. */
  ghost predicate ReserveLaw(db: Db, db': Db, o: Outcome<nat>, req: ReserveRequest, now: Time) {
    NewKey(db, req.key) ==> if o.Done? then ReservedFor(db, db', req, now, o.value) else db' == db
  }

  /** An open reservation is settled in full, or nothing changes. */
  ghost predicate SettleLaw(db: Db, db': Db, o: Outcome<nat>, id: nat, actual: int, c: Charge) {
    if o.Done? && IsOpen(db, id) then o == Done(id) && SettledFor(db, db', id, actual, c) else db' == db
  }

  /** An open reservation is released in full, or nothing changes. */
  ghost predicate ReleaseLaw(db: Db, db': Db, o: Outcome<nat>, id: nat, now: Time) {
    if o.Done? && IsOpen(db, id) then o == Done(id) && ReleasedFor(db, db', id, now) else db' == db
  }

  lemma ReserveDoes(db: Db, req: ReserveRequest, now: Time)
    ensures ReserveLaw(db, ReserveStep(db, req, now).0, ReserveStep(db, req, now).1, req, now)
  {
    hide FirstViolation, HasKey;
  }

  lemma SettleDoes(db: Db, id: nat, actualAmount: real, c: Charge)
    ensures SettleLaw(db, SettleStep(db, id, actualAmount, c).0, SettleStep(db, id, actualAmount, c).1, id, Money.Round(actualAmount), c)
  {
    hide FirstViolation, HasKey;
  }

  lemma ReleaseDoes(db: Db, id: nat, now: Time)
    ensures ReleaseLaw(db, ReleaseStep(db, id, now).0, ReleaseStep(db, id, now).1, id, now)
  {
    hide HasKey;
  }

  /** A bill under a new key spends the actual amount and nothing else: what was reserved for it is reserved no more. */
  ghost predicate BilledFor(db: Db, db': Db, req: ReserveRequest, actual: int, c: Charge, id: nat) {
    && Moves(db, db', req.scopes.user, -actual, 0, actual, 0) && Charges(db, db', req.scopes.user, actual)
    && id == |db.holds| && |db'.holds| == id + 1 && db'.holds[..id] == db.holds
    && db'.holds[id].key == req.key && db'.holds[id].status == Settled && db'.holds[id].settled == Some(actual)
    && |db'.ledger| >= |db.ledger| + 2 && db'.ledger[..|db.ledger|] == db.ledger
    && ChargeRow(db'.ledger[|db.ledger| + 1], req.scopes, req.key, actual, c)
  }

  lemma ReserveThenSettle(db: Db, mid: Db, db': Db, req: ReserveRequest, c: Charge, actual: int, id: nat)
    requires ReservedFor(db, mid, req, c.now, id) && SettledFor(mid, db', id, actual, c)
    ensures BilledFor(db, db', req, actual, c, id)
  {
    assert mid.holds[id].scopes == req.scopes;
    assert db'.ledger[|mid.ledger|] == db'.ledger[|db.ledger| + 1];
    assert db'.ledger[..|db.ledger|] == mid.ledger[..|db.ledger|];
    assert db'.holds[..id] == mid.holds[..id];
  }

  // ---- wallet calls ---------------------------------------------------------

  /** An accepted top-up, debit or refund adds one transaction and one ledger row. */
  ghost predicate Records(db: Db, db': Db, user: Id, kind: TransactionType, amount: int, txId: Id, rowKind: TransactionType, key: string) {
    && db'.holds == db.holds && |db'.txs| == |db.txs| + 1 && db'.txs[..|db.txs|] == db.txs && Posts(db, db', 1)
    && var t, row := db'.txs[|db.txs|], db'.ledger[|db.ledger|];
       && t.id == txId && t.wallet == user && t.kind == kind && t.amount == amount && t.before == WalletBefore(db, user).balance
       && user in db'.wallets && t.after == db'.wallets[user].balance
       && row.kind == rowKind && row.key == key && row.scopes == UserOnly(user) && row.amount == amount && row.status == RowSettled
       && !row.resource.HoldOf? && (kind == Debit ==> row.resource.Named?)
  }

  function KeyPart(reference: Option<string>, txId: Id): string {
    if reference.Some? && reference.value != "" then reference.value else txId
  }

  /** A budget cleared by money coming in: only when its flag is set and the balance is then positive. */
  ghost predicate Clears(db: Db, db': Db, user: Id, spend: int -> int) {
    && db'.budgets.Keys == db.budgets.Keys
    && (forall u :: u in db.budgets && u != user ==> db'.budgets[u] == db.budgets[u])
    && (user in db.budgets && user in db'.wallets ==>
          var b := db.budgets[user];
          db'.budgets[user] == if b.limitReached && db'.wallets[user].balance > 0
                               then Budget(b.monthlyLimit, spend(b.currentSpend), false) else b)
  }

  /** A top-up that adds a transaction credits exactly its amount. */
  ghost predicate CreditLaw(db: Db, db': Db, o: Outcome<Id>, user: Id, amount: int, reference: Option<string>, txId: Id) {
    |db'.txs| > |db.txs| ==>
      && o == Done(txId) && amount > 0
      && Moves(db, db', user, amount, 0, 0, amount)
      && Records(db, db', user, Credit, amount, txId, TopUp, "topup:" + KeyPart(reference, txId))
      && Clears(db, db', user, (spend: int) => 0)
  }

  /** A debit that adds a transaction debits exactly its amount, from a balance that covers it. */
  ghost predicate DebitLaw(db: Db, db': Db, o: Outcome<Id>, user: Id, amount: int, reference: Option<string>, txId: Id) {
    |db'.txs| > |db.txs| ==>
      && o == Done(txId) && 0 < amount <= WalletBefore(db, user).balance
      && Moves(db, db', user, -amount, 0, amount, 0)
      && Records(db, db', user, Debit, amount, txId, AiInference, "debit:" + KeyPart(reference, txId))
      && (if user in db.budgets && db.budgets[user].monthlyLimit.Some? then Charges(db, db', user, amount)
          else db'.budgets == db.budgets)
  }

  /** A refund gives back exactly what a debit of the user's own wallet took, or changes nothing. */
  ghost predicate RefundLaw(db: Db, db': Db, o: Outcome<Id>, user: Id, original: Id, txId: Id) {
    if o.Raised? then db' == db
    else
      && FindTx(db.txs, original).Some?
      && RefundedFor(db, db', user, db.txs[FindTx(db.txs, original).value], txId)
      && o == Done(txId) && db.txs[FindTx(db.txs, original).value].id == original
  }

  ghost predicate RefundedFor(db: Db, db': Db, user: Id, t: WalletTx, txId: Id) {
    && t.kind == Debit && t.wallet == user && user in db.wallets
    && Moves(db, db', user, t.amount, 0, Max(0, db.wallets[user].spent - t.amount) - db.wallets[user].spent, 0)
    && Records(db, db', user, Refund, t.amount, txId, Reversal, "refund:" + t.id)
    && Clears(db, db', user, (spend: int) => Max(0, spend - t.amount))
  }

  lemma CreditDoes(db: Db, user: Id, amount: int, reference: Option<string>, txId: Id, now: Time)
    ensures var (db', o) := AddCreditStep(db, user, amount, reference, txId, now); CreditLaw(db, db', o, user, amount, reference, txId)
  {
    var db1 := GetWallet(db, user);
    var t, row := CreditTx(db1, user, amount, reference, txId), TopUpRow(user, amount, reference, txId, now);
    AddCreditEnds(db, user, amount, reference, txId, now);
    CreditedMoves(db, t, row);
    CreditedClears(db, t, row);
    hide HasKey, FindTx, WithReference, CreditedDb, Moves, Clears;
  }

  lemma CreditedMoves(db: Db, t: WalletTx, row: LedgerRow)
    ensures Moves(db, CreditedDb(GetWallet(db, t.wallet), t, row), t.wallet, t.amount, 0, 0, t.amount)
    ensures CreditedDb(GetWallet(db, t.wallet), t, row).wallets[t.wallet].balance == WalletBefore(db, t.wallet).balance + t.amount
    ensures CreditedDb(GetWallet(db, t.wallet), t, row).txs == db.txs + [t]
    ensures CreditedDb(GetWallet(db, t.wallet), t, row).ledger == db.ledger + [row]
    ensures CreditedDb(GetWallet(db, t.wallet), t, row).holds == db.holds
  {
  }

  lemma CreditedClears(db: Db, t: WalletTx, row: LedgerRow)
    ensures Clears(db, CreditedDb(GetWallet(db, t.wallet), t, row), t.wallet, (spend: int) => 0)
  {
  }

  lemma DebitDoes(db: Db, user: Id, amount: int, reference: Option<string>, txId: Id, now: Time)
    ensures var (db', o) := DeductCreditStep(db, user, amount, reference, txId, now); DebitLaw(db, db', o, user, amount, reference, txId)
  {
    hide HasKey, FindTx, WithReference;
  }

  lemma RefundedMoves(db: Db, t: WalletTx, refund: WalletTx, row: LedgerRow)
    requires t.kind == Debit && t.wallet in db.wallets && refund.wallet == t.wallet && refund.amount == t.amount
    ensures var db' := RefundedDb(db, refund, row);
            && Moves(db, db', t.wallet, t.amount, 0, Max(0, db.wallets[t.wallet].spent - t.amount) - db.wallets[t.wallet].spent, 0)
            && db'.wallets[t.wallet].balance == WalletBefore(db, t.wallet).balance + t.amount
            && Clears(db, db', t.wallet, (spend: int) => Max(0, spend - t.amount))
  {
  }

  lemma RefundDoes(db: Db, user: Id, original: Id, txId: Id, now: Time)
    ensures var (db', o) := RefundStep(db, user, original, txId, now); RefundLaw(db, db', o, user, original, txId)
  {
    hide HasKey, AlreadyRefundedIn;
    if RefundStep(db, user, original, txId, now).1.Done? {
      var t := db.txs[FindTx(db.txs, original).value];
      RefundedMoves(db, t, RefundTx(db, t, txId), RefundRow(t, now));
      hide Moves, Clears;
    }
  }

  /** A wallet that is suspended or closed is never reserved on, credited or debited. */
  lemma InactiveStays(db: Db, user: Id, amount: int, reference: Option<string>, txId: Id, req: ReserveRequest, now: Time)
    requires user in db.wallets && db.wallets[user].status != Active && req.scopes.user == user
    ensures ReserveStep(db, req, now).0 == db
    ensures NewKey(db, req.key) ==> ReserveStep(db, req, now).1.Raised?
    ensures AddCreditStep(db, user, amount, reference, txId, now).0 == db
    ensures DeductCreditStep(db, user, amount, reference, txId, now).0 == db
  {
    hide FirstViolation, HasKey, FindTx, WithReference;
  }

  lemma {:induction false} ReferenceAdded(txs: seq<WalletTx>, t: WalletTx, reference: string)
    ensures WithReference(txs + [t], reference)
         == WithReference(txs, reference) + if t.reference == Some(reference) then [|txs|] else []
  {
    assert (txs + [t])[..|txs|] == txs;
  }

  /** Repeating an accepted top-up under its reference, with whatever amount, returns the first transaction and
      changes nothing. */
  lemma CreditRepeats(db: Db, user: Id, amount: int, reference: string, txId: Id, now: Time, amount2: int, txId2: Id, now2: Time)
    requires reference != "" && amount2 > 0
    requires AddCreditStep(db, user, amount, Some(reference), txId, now).1.Done?
    ensures var first := AddCreditStep(db, user, amount, Some(reference), txId, now);
            AddCreditStep(first.0, user, amount2, Some(reference), txId2, now2) == first
  {
    hide HasKey, FindTx, WithReference;
    var db1 := GetWallet(db, user);
    ReferenceAdded(db1.txs, CreditTx(db1, user, amount, Some(reference), txId), reference);
  }

  /** So does repeating an accepted debit. */
  lemma DebitRepeats(db: Db, user: Id, amount: int, reference: string, txId: Id, now: Time, amount2: int, txId2: Id, now2: Time)
    requires reference != "" && amount2 > 0
    requires DeductCreditStep(db, user, amount, Some(reference), txId, now).1.Done?
    ensures var first := DeductCreditStep(db, user, amount, Some(reference), txId, now);
            DeductCreditStep(first.0, user, amount2, Some(reference), txId2, now2) == first
  {
    hide HasKey, FindTx, WithReference;
    var db1 := GetWallet(db, user);
    ReferenceAdded(db1.txs, DebitTx(db1, user, amount, Some(reference), txId), reference);
  }
}
