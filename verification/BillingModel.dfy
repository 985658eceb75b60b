/** The billing tables as values, and the net effect of each service call on them.

    A call locks its rows, changes them and commits, so it is one step from a database
    state to the next.  A call that raises leaves the committed tables alone, except that
    a wallet row created on first use is committed on its own. */
module BillingModel {
  import opened Common
  import Money

  type Id = string
  type Time = nat  // microseconds since 1970-01-01 UTC

  datatype WalletStatus = Active | Suspended | Closed

  datatype TransactionType =
    | Credit | Debit | Refund | TopUp | Reservation
    | AiInference | Embedding | Reranking | Rag | Storage | Compute | Integration
    | Reversal | Adjustment | Other(name: string)

  const SPENDING_TYPES: set<TransactionType> :=
    {AiInference, Embedding, Reranking, Rag, Storage, Compute, Integration}

  datatype Wallet = Wallet(balance: int, reserved: int, spent: int, topups: int, status: WalletStatus)

  const EMPTY_WALLET := Wallet(0, 0, 0, 0, Active)

  datatype WalletTx = WalletTx(id: Id, wallet: Id, kind: TransactionType, amount: int,
                               before: int, after: int, reference: Option<string>)

  datatype Budget = Budget(monthlyLimit: Option<int>, currentSpend: int, limitReached: bool)

  datatype ScopeKind = UserScope | OrganizationScope | ProjectScope | RuntimeScope | ApiKeyScope

  const SCOPE_ORDER: seq<ScopeKind> :=
    [UserScope, OrganizationScope, ProjectScope, RuntimeScope, ApiKeyScope]

  datatype Scopes = Scopes(user: Id, organization: Option<Id>, project: Option<Id>,
                           runtime: Option<Id>, apiKey: Option<Id>) {
    function Get(kind: ScopeKind): Option<Id> {
      match kind
      case UserScope => Some(user)
      case OrganizationScope => organization
      case ProjectScope => project
      case RuntimeScope => runtime
      case ApiKeyScope => apiKey
    }
  }

  datatype HoldStatus = Reserved | Settled | Released

  /** A reservation row.  Its id is its row number. */
  datatype Hold = Hold(id: nat, scopes: Scopes, key: string, estimated: int,
                       settled: Option<int>, released: int, status: HoldStatus,
                       createdAt: Time, expiresAt: Time)

  datatype LedgerStatus = RowReserved | RowSettled | RowReleased

  /** What a ledger row is about: a reservation, a wallet transaction, or a caller's reference. */
  datatype Resource = HoldOf(hold: nat) | TxOf(tx: Id) | Named(reference: Option<string>)

  datatype LedgerRow = LedgerRow(kind: TransactionType, scopes: Scopes, key: string, resource: Resource,
                                 amount: int, providerCost: int, markup: int,
                                 status: LedgerStatus, createdAt: Time)

  datatype Period = Daily | Monthly | Lifetime

  datatype SpendingLimit = SpendingLimit(scope: ScopeKind, scopeId: Id, period: Period, amount: int, active: bool)

  datatype Db = Db(wallets: map<Id, Wallet>, budgets: map<Id, Budget>, holds: seq<Hold>,
                   ledger: seq<LedgerRow>, txs: seq<WalletTx>, limits: seq<SpendingLimit>)

  datatype Error =
    | NotPositive | NegativeActual | WalletNotActive
    | InsufficientBalance(required: int, available: int)
    | LimitExceeded(scope: ScopeKind, period: Period, limit: int, projected: int)
    | IntegrityError | NoResultFound | MultipleResultsFound
    | TransactionNotFound | NotADebit | AlreadyRefunded | WalletMismatch

  datatype Outcome<+T> = Done(value: T) | Raised(error: Error)

  // ---- calendar -------------------------------------------------------------

  const DAY: nat := 86_400_000_000

  function DaysInMonth(year: nat, month: nat): nat {
    if month == 2 then
      if year % 4 == 0 && (year % 100 != 0 || year % 400 == 0) then 29 else 28
    else if month == 4 || month == 6 || month == 9 || month == 11 then 30
    else 31
  }

  /** The first day of the month holding `day`, searching from the month that starts at `first`. */
  function MonthStartDay(day: nat, first: nat, year: nat, month: nat): (r: nat)
    requires first <= day
    ensures first <= r <= day
    decreases day - first
  {
    var next := first + DaysInMonth(year, month);
    if day < next then first
    else if month == 12 then MonthStartDay(day, next, year + 1, 1)
    else MonthStartDay(day, next, year, month + 1)
  }

  function PeriodStart(period: Period, now: Time): Time {
    match period
    case Daily => now - now % DAY
    case Monthly => MonthStartDay(now / DAY, 0, 1970, 1) * DAY
    case Lifetime => 0
  }

  // ---- queries --------------------------------------------------------------

  predicate HasKey(ledger: seq<LedgerRow>, key: string) {
    exists i :: 0 <= i < |ledger| && ledger[i].key == key
  }

  function FindHold(holds: seq<Hold>, key: string): (r: Option<nat>)
    ensures r.Some? ==> r.value < |holds| && holds[r.value].key == key
    ensures r.None? ==> forall i :: 0 <= i < |holds| ==> holds[i].key != key
  {
    if holds == [] then None
    else
      var n := |holds| - 1;
      var r := FindHold(holds[..n], key);
      if r.Some? then r else if holds[n].key == key then Some(n) else None
  }

  function FindTx(txs: seq<WalletTx>, id: Id): (r: Option<nat>)
    ensures r.Some? ==> r.value < |txs| && txs[r.value].id == id
    ensures r.None? ==> forall i :: 0 <= i < |txs| ==> txs[i].id != id
  {
    if txs == [] then None
    else
      var n := |txs| - 1;
      var r := FindTx(txs[..n], id);
      if r.Some? then r else if txs[n].id == id then Some(n) else None
  }

  /** The positions of the wallet transactions that carry a reference. */
  function WithReference(txs: seq<WalletTx>, reference: string): (r: seq<nat>)
    ensures forall k :: 0 <= k < |r| ==> r[k] < |txs| && txs[r[k]].reference == Some(reference)
    ensures forall i: nat :: i < |txs| && txs[i].reference == Some(reference) ==> i in r
  {
    if txs == [] then []
    else
      var n := |txs| - 1;
      WithReference(txs[..n], reference) + if txs[n].reference == Some(reference) then [n] else []
  }

  /** An empty reference counts as none. */
  function Truthy(reference: Option<string>): Option<string> {
    if reference == Some("") then None else reference
  }

  predicate IsSpendRow(row: LedgerRow) {
    row.status == RowSettled && row.kind in SPENDING_TYPES
  }

  predicate IsRefundRow(row: LedgerRow) {
    row.kind == Reversal && row.status == RowSettled && row.resource.TxOf?
  }

  predicate AlreadyRefundedIn(ledger: seq<LedgerRow>, tx: Id) {
    exists i :: 0 <= i < |ledger| && IsRefundRow(ledger[i]) && ledger[i].resource == TxOf(tx)
  }

  function SpendUnder(kind: ScopeKind, id: Id, start: Time): LedgerRow -> int {
    (row: LedgerRow) =>
      if IsSpendRow(row) && row.createdAt >= start && row.scopes.Get(kind) == Some(id) then row.amount else 0
  }

  function HeldUnder(kind: ScopeKind, id: Id, start: Time, exclude: Option<nat>): Hold -> int {
    (h: Hold) =>
      if h.status == Reserved && h.createdAt >= start && h.scopes.Get(kind) == Some(id) && exclude != Some(h.id)
      then h.estimated else 0
  }

  // ---- spending limits ------------------------------------------------------

  function Projected(db: Db, l: SpendingLimit, amount: int, now: Time, exclude: Option<nat>): int {
    var start := PeriodStart(l.period, now);
    Sum(db.ledger, SpendUnder(l.scope, l.scopeId, start))
    + Sum(db.holds, HeldUnder(l.scope, l.scopeId, start, exclude))
    + amount
  }

  predicate Applies(l: SpendingLimit, scopes: Scopes) {
    l.active && scopes.Get(l.scope) == Some(l.scopeId)
  }

  /** A charge is admitted when every active limit on one of its scopes has room for it. */
  ghost predicate Admits(db: Db, amount: int, scopes: Scopes, now: Time, exclude: Option<nat>) {
    forall i :: 0 <= i < |db.limits| && Applies(db.limits[i], scopes) ==>
      Projected(db, db.limits[i], amount, now, exclude) <= db.limits[i].amount
  }

  /** The error a refused charge raises: some applicable limit, and how far past it the charge would go. */
  ghost predicate Refuses(db: Db, amount: int, scopes: Scopes, now: Time, exclude: Option<nat>, e: Error) {
    exists i :: 0 <= i < |db.limits| && Applies(db.limits[i], scopes)
      && Projected(db, db.limits[i], amount, now, exclude) > db.limits[i].amount
      && e == LimitExceeded(db.limits[i].scope, db.limits[i].period, db.limits[i].amount,
                            Projected(db, db.limits[i], amount, now, exclude))
  }

  /** The first violated limit of one scope, from row n of the table on. */
  function FirstInScope(db: Db, kind: ScopeKind, n: nat, amount: int, scopes: Scopes, now: Time,
                        exclude: Option<nat>): (r: Option<Error>)
    requires n <= |db.limits|
    ensures r.Some? ==> Refuses(db, amount, scopes, now, exclude, r.value)
    ensures r.None? ==> forall i :: n <= i < |db.limits| && db.limits[i].scope == kind && Applies(db.limits[i], scopes) ==>
                          Projected(db, db.limits[i], amount, now, exclude) <= db.limits[i].amount
    decreases |db.limits| - n
  {
    if n == |db.limits| then None
    else
      var l := db.limits[n];
      if l.scope == kind && Applies(l, scopes) && Projected(db, l, amount, now, exclude) > l.amount then
        Some(LimitExceeded(l.scope, l.period, l.amount, Projected(db, l, amount, now, exclude)))
      else
        FirstInScope(db, kind, n + 1, amount, scopes, now, exclude)
  }

  /** Scopes are checked in order, from position k of SCOPE_ORDER on. */
  function FirstViolation(db: Db, k: nat, amount: int, scopes: Scopes, now: Time, exclude: Option<nat>): (r: Option<Error>)
    requires k <= |SCOPE_ORDER|
    ensures r.Some? ==> Refuses(db, amount, scopes, now, exclude, r.value)
    ensures r.None? ==> forall i :: 0 <= i < |db.limits| && db.limits[i].scope in SCOPE_ORDER[k..] && Applies(db.limits[i], scopes) ==>
                          Projected(db, db.limits[i], amount, now, exclude) <= db.limits[i].amount
    decreases |SCOPE_ORDER| - k
  {
    if k == |SCOPE_ORDER| then None
    else
      var r := FirstInScope(db, SCOPE_ORDER[k], 0, amount, scopes, now, exclude);
      if r.Some? then r else FirstViolation(db, k + 1, amount, scopes, now, exclude)
  }

  /** The check is sound and complete: it raises exactly when some applicable limit has no room. */
  lemma CheckExact(db: Db, amount: int, scopes: Scopes, now: Time, exclude: Option<nat>)
    ensures FirstViolation(db, 0, amount, scopes, now, exclude).None? <==> Admits(db, amount, scopes, now, exclude)
  {
    assert SCOPE_ORDER[0] == UserScope && SCOPE_ORDER[1] == OrganizationScope && SCOPE_ORDER[2] == ProjectScope
           && SCOPE_ORDER[3] == RuntimeScope && SCOPE_ORDER[4] == ApiKeyScope;
    assert SCOPE_ORDER[0..] == SCOPE_ORDER;
    forall s: ScopeKind
      ensures s in SCOPE_ORDER
    {
      assert s == SCOPE_ORDER[match s case UserScope => 0 case OrganizationScope => 1 case ProjectScope => 2
                                      case RuntimeScope => 3 case ApiKeyScope => 4];
    }
  }

  // ---- metered engine -------------------------------------------------------

  datatype ReserveRequest = ReserveRequest(amount: real, key: string, scopes: Scopes, ttlSeconds: int)

  /** What a settlement needs besides its amount. */
  datatype Charge = Charge(kind: TransactionType, providerCost: real, now: Time)

  function NewHold(db: Db, req: ReserveRequest, now: Time): Hold {
    Hold(|db.holds|, req.scopes, req.key, Money.Round(req.amount), None, 0, Reserved, now,
         now + Max(1, req.ttlSeconds) * 1_000_000)
  }

  function ReservationRow(h: Hold): LedgerRow {
    LedgerRow(Reservation, h.scopes, h.key + ":reservation", HoldOf(h.id), h.estimated, 0, 0, RowReserved, h.createdAt)
  }

  function SettledRow(h: Hold, actual: int, c: Charge): LedgerRow {
    LedgerRow(c.kind, h.scopes, h.key + ":settled", HoldOf(h.id), actual, Money.Round(c.providerCost),
              Money.Round(actual as real - c.providerCost), RowSettled, c.now)
  }

  function ReleaseRow(h: Hold, amount: int, now: Time): LedgerRow {
    LedgerRow(Reversal, h.scopes, h.key + ":release", HoldOf(h.id), amount, 0, 0, RowReleased, now)
  }

  function WalletOrNew(db: Db, user: Id): Wallet {
    if user in db.wallets then db.wallets[user] else EMPTY_WALLET
  }

  /** The tables after an accepted reservation: the amount moves from the balance to the reserved part. */
  function Opened(db: Db, h: Hold): Db {
    var user := h.scopes.user;
    var w := WalletOrNew(db, user);
    db.(wallets := db.wallets[user := w.(balance := w.balance - h.estimated, reserved := w.reserved + h.estimated)],
        holds := db.holds + [h],
        ledger := db.ledger + [ReservationRow(h)])
  }

  function ReserveStep(db: Db, req: ReserveRequest, now: Time): (Db, Outcome<nat>) {
    var amount := Money.Round(req.amount);
    if amount <= 0 then (db, Raised(NotPositive))
    else
      var existing := FindHold(db.holds, req.key);
      if existing.Some? then (db, Done(existing.value))
      else
        var violated := FirstViolation(db, 0, amount, req.scopes, now, None);
        var w := WalletOrNew(db, req.scopes.user);
        if violated.Some? then (db, Raised(violated.value))
        else if w.status != Active then (db, Raised(WalletNotActive))
        else if w.balance < amount then (db, Raised(InsufficientBalance(amount, w.balance)))
        else if HasKey(db.ledger, req.key + ":reservation") then (db, Raised(IntegrityError))
        else (Opened(db, NewHold(db, req, now)), Done(|db.holds|))
  }

  /** The rows a settlement posts: the charge, and the unused part of the hold when there is one. */
  function SettlementRows(h: Hold, actual: int, c: Charge): seq<LedgerRow> {
    [SettledRow(h, actual, c)]
    + if actual < h.estimated then [ReleaseRow(h, h.estimated - actual, c.now)] else []
  }

  function ChargeBudget(budgets: map<Id, Budget>, user: Id, actual: int): map<Id, Budget> {
    if user !in budgets then budgets
    else
      var b := budgets[user];
      var spend := b.currentSpend + actual;
      budgets[user := b.(currentSpend := spend,
                         limitReached := b.limitReached || (b.monthlyLimit.Some? && spend >= b.monthlyLimit.value))]
  }

  /** The tables after an accepted settlement, overrun or not: the hold is gone, the actual amount is
      spent, the difference is on the balance, and the row's estimate has grown to the actual amount. */
  function SettledDb(db: Db, id: nat, actual: int, c: Charge): Db
    requires id < |db.holds| && db.holds[id].scopes.user in db.wallets
  {
    var h := db.holds[id];
    var user := h.scopes.user;
    var w := db.wallets[user];
    db.(wallets := db.wallets[user := w.(balance := w.balance + h.estimated - actual,
                                         reserved := w.reserved - h.estimated,
                                         spent := w.spent + actual)],
        budgets := ChargeBudget(db.budgets, user, actual),
        holds := db.holds[id := h.(estimated := Max(h.estimated, actual), settled := Some(actual),
                                   released := Max(h.estimated, actual) - actual, status := Settled)],
        ledger := db.ledger + SettlementRows(h, actual, c))
  }

  /** Why a settlement of an open reservation is refused, if it is. */
  function SettleRefusal(db: Db, id: nat, actual: int, now: Time): Option<Error>
    requires id < |db.holds|
  {
    var h := db.holds[id];
    if actual < 0 then Some(NegativeActual)
    else if h.scopes.user !in db.wallets then Some(NoResultFound)
    else
      var w := db.wallets[h.scopes.user];
      var additional := actual - h.estimated;
      var violated := if additional > 0 then FirstViolation(db, 0, additional, h.scopes, now, Some(h.id)) else None;
      if violated.Some? then violated
      else if additional > 0 && w.balance < additional then Some(InsufficientBalance(actual, w.balance + h.estimated))
      else if HasKey(db.ledger, h.key + ":settled") || (additional < 0 && HasKey(db.ledger, h.key + ":release"))
      then Some(IntegrityError)
      else None
  }

  function SettleStep(db: Db, id: nat, actualAmount: real, c: Charge): (Db, Outcome<nat>) {
    var actual := Money.Round(actualAmount);
    if id >= |db.holds| then (db, Raised(NoResultFound))
    else if db.holds[id].status != Reserved then (db, Done(id))
    else
      var refusal := SettleRefusal(db, id, actual, c.now);
      if refusal.Some? then (db, Raised(refusal.value)) else (SettledDb(db, id, actual, c), Done(id))
  }

  /** The tables after a release: the whole hold is back on the balance. */
  function ReleasedDb(db: Db, id: nat, now: Time): Db
    requires id < |db.holds| && db.holds[id].scopes.user in db.wallets
  {
    var h := db.holds[id];
    var user := h.scopes.user;
    var w := db.wallets[user];
    db.(wallets := db.wallets[user := w.(balance := w.balance + h.estimated, reserved := w.reserved - h.estimated)],
        holds := db.holds[id := h.(released := h.estimated, status := Released)],
        ledger := db.ledger + [ReleaseRow(h, h.estimated, now)])
  }

  function ReleaseStep(db: Db, id: nat, now: Time): (Db, Outcome<nat>) {
    if id >= |db.holds| then (db, Raised(NoResultFound))
    else if db.holds[id].status != Reserved then (db, Done(id))
    else if db.holds[id].scopes.user !in db.wallets then (db, Raised(NoResultFound))
    else if HasKey(db.ledger, db.holds[id].key + ":release") then (db, Raised(IntegrityError))
    else (ReleasedDb(db, id, now), Done(id))
  }

  /** Release a list of reservations one commit at a time; the first error stops the sweep. */
  function ReleaseAll(db: Db, ids: seq<nat>, now: Time): (Db, Outcome<nat>)
  {
    if ids == [] then (db, Done(0))
    else
      var (db1, r) := ReleaseAll(db, ids[..|ids| - 1], now);
      if r.Raised? then (db1, r)
      else
        var (db2, o) := ReleaseStep(db1, ids[|ids| - 1], now);
        (db2, if o.Raised? then Raised(o.error) else Done(r.value + 1))
  }

  predicate Expired(h: Hold, now: Time) {
    h.status == Reserved && h.expiresAt <= now
  }

  /** Insert a row number into a list ordered by expiry, after the rows that expire no later. */
  function InsertByExpiry(holds: seq<Hold>, ids: seq<nat>, id: nat): (r: seq<nat>)
    requires id < |holds| && forall k :: 0 <= k < |ids| ==> ids[k] < |holds|
    ensures |r| == |ids| + 1
    ensures forall k :: 0 <= k < |r| ==> r[k] == id || r[k] in ids
  {
    if ids == [] then [id]
    else
      var n := |ids| - 1;
      if holds[ids[n]].expiresAt <= holds[id].expiresAt then ids + [id]
      else InsertByExpiry(holds, ids[..n], id) + [ids[n]]
  }

  /** The open reservations past their expiry, oldest expiry first. */
  function ExpiredIds(holds: seq<Hold>, n: nat, now: Time): (r: seq<nat>)
    requires n <= |holds|
    ensures forall k :: 0 <= k < |r| ==> r[k] < n && Expired(holds[r[k]], now)
  {
    if n == 0 then []
    else
      var r := ExpiredIds(holds, n - 1, now);
      if Expired(holds[n - 1], now) then InsertByExpiry(holds, r, n - 1) else r
  }

  function ExpiryBatch(db: Db, limit: nat, now: Time): seq<nat> {
    var ids := ExpiredIds(db.holds, |db.holds|, now);
    ids[..Min(|ids|, limit)]
  }

  function ExpireStep(db: Db, limit: nat, now: Time): (Db, Outcome<nat>) {
    ReleaseAll(db, ExpiryBatch(db, limit, now), now)
  }

  // ---- wallet service -------------------------------------------------------

  function GetWallet(db: Db, user: Id): Db {
    if user in db.wallets then db else db.(wallets := db.wallets[user := EMPTY_WALLET])
  }

  function OrElse(reference: Option<string>, id: Id): string {
    if reference.Some? then reference.value else id
  }

  function UserOnly(user: Id): Scopes {
    Scopes(user, None, None, None, None)
  }

  /** A credit that clears a reached budget also restarts its spend. */
  function ClearBudget(budgets: map<Id, Budget>, user: Id, balanceAfter: int): map<Id, Budget> {
    if user in budgets && budgets[user].limitReached && balanceAfter > 0
    then budgets[user := budgets[user].(limitReached := false, currentSpend := 0)]
    else budgets
  }

  function CreditTx(db: Db, user: Id, amount: int, reference: Option<string>, txId: Id): WalletTx {
    var w := WalletOrNew(db, user);
    WalletTx(txId, user, Credit, amount, w.balance, w.balance + amount, reference)
  }

  function TopUpRow(user: Id, amount: int, reference: Option<string>, txId: Id, now: Time): LedgerRow {
    LedgerRow(TopUp, UserOnly(user), "topup:" + OrElse(Truthy(reference), txId), Named(reference), amount, 0, 0, RowSettled, now)
  }

  function CreditedDb(db: Db, t: WalletTx, row: LedgerRow): Db
    requires t.wallet in db.wallets
  {
    var w := db.wallets[t.wallet];
    db.(wallets := db.wallets[t.wallet := w.(balance := w.balance + t.amount, topups := w.topups + t.amount)],
        budgets := ClearBudget(db.budgets, t.wallet, w.balance + t.amount),
        txs := db.txs + [t],
        ledger := db.ledger + [row])
  }

  /** What a call with a reference already used returns or raises, and why a new one may be refused. */
  function WalletCallEnd(db: Db, user: Id, reference: Option<string>): Option<Outcome<Id>>
    requires user in db.wallets
  {
    var ref := Truthy(reference);
    var found := if ref.Some? then WithReference(db.txs, ref.value) else [];
    if |found| > 1 then Some(Raised(MultipleResultsFound))
    else if |found| == 1 then Some(Done(db.txs[found[0]].id))
    else if db.wallets[user].status != Active then Some(Raised(WalletNotActive))
    else None
  }

  /** Unique columns: the primary key of a wallet transaction and the key of a ledger row. */
  predicate Clashes(db: Db, txId: Id, row: LedgerRow) {
    FindTx(db.txs, txId).Some? || HasKey(db.ledger, row.key)
  }

  function AddCreditStep(db0: Db, user: Id, amount: int, reference: Option<string>, txId: Id, now: Time): (Db, Outcome<Id>) {
    if amount <= 0 then (db0, Raised(NotPositive))
    else
      var db := GetWallet(db0, user);
      var end := WalletCallEnd(db, user, reference);
      var row := TopUpRow(user, amount, reference, txId, now);
      if end.Some? then (db, end.value)
      else if Clashes(db, txId, row) then (db, Raised(IntegrityError))
      else (CreditedDb(db, CreditTx(db, user, amount, reference, txId), row), Done(txId))
  }

  /** A top-up changes nothing, creates an empty wallet, or credits one. */
  lemma AddCreditEnds(db0: Db, user: Id, amount: int, reference: Option<string>, txId: Id, now: Time)
    ensures var db := GetWallet(db0, user);
            var end := AddCreditStep(db0, user, amount, reference, txId, now).0;
            end == db0 || end == db
            || end == CreditedDb(db, CreditTx(db, user, amount, reference, txId), TopUpRow(user, amount, reference, txId, now))
  {
  }

  /** A debit counts against the budget only when the budget has a monthly limit. */
  function DebitBudget(budgets: map<Id, Budget>, user: Id, amount: int): map<Id, Budget> {
    if user in budgets && budgets[user].monthlyLimit.Some? then ChargeBudget(budgets, user, amount) else budgets
  }

  function DebitTx(db: Db, user: Id, amount: int, reference: Option<string>, txId: Id): WalletTx {
    var w := WalletOrNew(db, user);
    WalletTx(txId, user, Debit, amount, w.balance, w.balance - amount, reference)
  }

  function DebitRow(user: Id, amount: int, reference: Option<string>, txId: Id, now: Time): LedgerRow {
    LedgerRow(AiInference, UserOnly(user), "debit:" + OrElse(Truthy(reference), txId), Named(reference), amount, 0, 0, RowSettled, now)
  }

  function DebitedDb(db: Db, t: WalletTx, row: LedgerRow): Db
    requires t.wallet in db.wallets
  {
    var w := db.wallets[t.wallet];
    db.(wallets := db.wallets[t.wallet := w.(balance := w.balance - t.amount, spent := w.spent + t.amount)],
        budgets := DebitBudget(db.budgets, t.wallet, t.amount),
        txs := db.txs + [t],
        ledger := db.ledger + [row])
  }

  function DeductCreditStep(db0: Db, user: Id, amount: int, reference: Option<string>, txId: Id, now: Time): (Db, Outcome<Id>) {
    if amount <= 0 then (db0, Raised(NotPositive))
    else
      var db := GetWallet(db0, user);
      var end := WalletCallEnd(db, user, reference);
      var row := DebitRow(user, amount, reference, txId, now);
      if end.Some? then (db, end.value)
      else if db.wallets[user].balance < amount then (db, Raised(InsufficientBalance(amount, db.wallets[user].balance)))
      else if Clashes(db, txId, row) then (db, Raised(IntegrityError))
      else (DebitedDb(db, DebitTx(db, user, amount, reference, txId), row), Done(txId))
  }

  /** A debit changes nothing, creates an empty wallet, or debits one that covers it. */
  lemma DeductCreditEnds(db0: Db, user: Id, amount: int, reference: Option<string>, txId: Id, now: Time)
    ensures var db := GetWallet(db0, user);
            var end := DeductCreditStep(db0, user, amount, reference, txId, now).0;
            end == db0 || end == db
            || end == DebitedDb(db, DebitTx(db, user, amount, reference, txId), DebitRow(user, amount, reference, txId, now))
  {
  }

  /** A refund that clears a reached budget takes the refunded amount off its spend. */
  function RefundBudget(budgets: map<Id, Budget>, user: Id, amount: int, balanceAfter: int): map<Id, Budget> {
    if user in budgets && budgets[user].limitReached && balanceAfter > 0
    then budgets[user := budgets[user].(limitReached := false, currentSpend := Max(0, budgets[user].currentSpend - amount))]
    else budgets
  }

  function RefundTx(db: Db, original: WalletTx, txId: Id): WalletTx {
    var w := WalletOrNew(db, original.wallet);
    WalletTx(txId, original.wallet, Refund, original.amount, w.balance, w.balance + original.amount, Some(original.id))
  }

  function RefundRow(original: WalletTx, now: Time): LedgerRow {
    LedgerRow(Reversal, UserOnly(original.wallet), "refund:" + original.id, TxOf(original.id), original.amount, 0, 0, RowSettled, now)
  }

  function RefundedDb(db: Db, t: WalletTx, row: LedgerRow): Db
    requires t.wallet in db.wallets
  {
    var w := db.wallets[t.wallet];
    db.(wallets := db.wallets[t.wallet := w.(balance := w.balance + t.amount, spent := Max(0, w.spent - t.amount))],
        budgets := RefundBudget(db.budgets, t.wallet, t.amount, w.balance + t.amount),
        txs := db.txs + [t],
        ledger := db.ledger + [row])
  }

  function RefundStep(db: Db, user: Id, original: Id, txId: Id, now: Time): (Db, Outcome<Id>) {
    var found := FindTx(db.txs, original);
    if found.None? then (db, Raised(TransactionNotFound))
    else
      var t := db.txs[found.value];
      if t.kind != Debit then (db, Raised(NotADebit))
      else if AlreadyRefundedIn(db.ledger, original) then (db, Raised(AlreadyRefunded))
      else if user !in db.wallets || user != t.wallet then (db, Raised(WalletMismatch))
      else if Clashes(db, txId, RefundRow(t, now)) then (db, Raised(IntegrityError))
      else (RefundedDb(db, RefundTx(db, t, txId), RefundRow(t, now)), Done(txId))
  }

  // ---- budgets --------------------------------------------------------------

  /** A change of budgets that moves no money.  The limits are positive; a request for any other is turned down
      before it reaches the service. */
  datatype BudgetOp =
    | PutBudget(user: Id, limit: int)
    | PatchBudget(user: Id, newLimit: Option<int>)
    | CheckBudget(user: Id, estimate: int)
    | ResetBudgets

  /** Create a budget, or set the limit of one. */
  function PutStep(budgets: map<Id, Budget>, user: Id, limit: int): map<Id, Budget> {
    if limit <= 0 then budgets
    else if user in budgets then budgets[user := budgets[user].(monthlyLimit := Some(limit))]
    else budgets[user := Budget(Some(limit), 0, false)]
  }

  /** Set the limit of a budget, if there is one and a limit is given. */
  function PatchStep(budgets: map<Id, Budget>, user: Id, limit: Option<int>): map<Id, Budget> {
    if user in budgets && limit.Some? && limit.value > 0
    then budgets[user := budgets[user].(monthlyLimit := limit)]
    else budgets
  }

  /** Whether an estimated cost stays below the limit; the flag is set when it does not. */
  function CheckStep(budgets: map<Id, Budget>, user: Id, estimate: int): (map<Id, Budget>, bool) {
    if user !in budgets || budgets[user].monthlyLimit.None? then (budgets, true)
    else if budgets[user].currentSpend + estimate >= budgets[user].monthlyLimit.value
    then (budgets[user := budgets[user].(limitReached := true)], false)
    else (budgets, true)
  }

  function Restarted(b: Budget): Budget {
    if b.monthlyLimit.Some? then b.(currentSpend := 0, limitReached := false) else b
  }

  /** At the start of a month every budget with a limit starts over. */
  function ResetStep(budgets: map<Id, Budget>): map<Id, Budget> {
    map u | u in budgets :: Restarted(budgets[u])
  }

  function BudgetStep(budgets: map<Id, Budget>, op: BudgetOp): map<Id, Budget> {
    match op
    case PutBudget(user, limit) => PutStep(budgets, user, limit)
    case PatchBudget(user, limit) => PatchStep(budgets, user, limit)
    case CheckBudget(user, estimate) => CheckStep(budgets, user, estimate).0
    case ResetBudgets => ResetStep(budgets)
  }

  // ---- runs -----------------------------------------------------------------

  /** One call of the service, or a change of a wallet's status by someone else. */
  datatype Op =
    | OpAddCredit(user: Id, amount: int, reference: Option<string>, txId: Id)
    | OpDeductCredit(user: Id, amount: int, reference: Option<string>, txId: Id)
    | OpRefund(user: Id, original: Id, txId: Id)
    | OpReserve(request: ReserveRequest)
    | OpSettle(id: nat, actual: real, kind: TransactionType, providerCost: real)
    | OpRelease(id: nat)
    | OpExpire(limit: nat)
    | OpSetStatus(user: Id, status: WalletStatus)
    | OpBudget(change: BudgetOp)

  datatype Call = Call(op: Op, now: Time)

  function SetStatus(db: Db, user: Id, status: WalletStatus): Db {
    if user in db.wallets then db.(wallets := db.wallets[user := db.wallets[user].(status := status)]) else db
  }

  function Apply(db: Db, c: Call): Db {
    match c.op
    case OpAddCredit(user, amount, reference, txId) => AddCreditStep(db, user, amount, reference, txId, c.now).0
    case OpDeductCredit(user, amount, reference, txId) => DeductCreditStep(db, user, amount, reference, txId, c.now).0
    case OpRefund(user, original, txId) => RefundStep(db, user, original, txId, c.now).0
    case OpReserve(request) => ReserveStep(db, request, c.now).0
    case OpSettle(id, actual, kind, providerCost) => SettleStep(db, id, actual, Charge(kind, providerCost, c.now)).0
    case OpRelease(id) => ReleaseStep(db, id, c.now).0
    case OpExpire(limit) => ExpireStep(db, limit, c.now).0
    case OpSetStatus(user, status) => SetStatus(db, user, status)
    case OpBudget(change) => db.(budgets := BudgetStep(db.budgets, change))
  }

  function Run(db: Db, calls: seq<Call>): Db {
    if calls == [] then db else Apply(Run(db, calls[..|calls| - 1]), calls[|calls| - 1])
  }

  /** The tables before the first call: limits and budgets are configured, nothing has moved. */
  function Initial(budgets: map<Id, Budget>, limits: seq<SpendingLimit>): Db {
    Db(map[], budgets, [], [], [], limits)
  }
}
