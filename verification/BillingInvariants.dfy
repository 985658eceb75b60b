/** What every call of the billing services keeps: conservation of money, hold accounting,
    one closing per reservation, and a ledger that tells each reservation's whole story. */
module BillingInvariants {
  import opened Common
  import opened BillingModel
  import Money

  // ---- the sums behind a wallet ---------------------------------------------

  function OpenHold(user: Id): Hold -> int {
    (h: Hold) => if h.status == Reserved && h.scopes.user == user then h.estimated else 0
  }

  function SettledHold(user: Id): Hold -> int {
    (h: Hold) => if h.settled.Some? && h.scopes.user == user then h.settled.value else 0
  }

  /** The ids of the debits the ledger has refunded. */
  ghost function Refunded(ledger: seq<LedgerRow>): set<Id> {
    set i | 0 <= i < |ledger| && IsRefundRow(ledger[i]) :: ledger[i].resource.tx
  }

  ghost function UnrefundedDebit(user: Id, refunded: set<Id>): WalletTx -> int {
    (t: WalletTx) => if t.kind == Debit && t.wallet == user && t.id !in refunded then t.amount else 0
  }

  function CreditTo(user: Id): WalletTx -> int {
    (t: WalletTx) => if t.kind == Credit && t.wallet == user then t.amount else 0
  }

  /** One wallet: the balance is not negative, the reserved part is exactly the open holds, money is
      conserved, the top-ups are exactly the credits made, and what was spent is exactly the settled holds
      and the unrefunded debits. */
  ghost predicate WalletSound(db: Db, user: Id)
    requires user in db.wallets
  {
    var w := db.wallets[user];
    && w.balance >= 0
    && w.reserved == Sum(db.holds, OpenHold(user))
    && w.balance + w.reserved + w.spent == w.topups
    && w.topups == Sum(db.txs, CreditTo(user))
    && w.spent == Sum(db.txs, UnrefundedDebit(user, Refunded(db.ledger))) + Sum(db.holds, SettledHold(user))
  }

  ghost predicate WalletsSound(db: Db) {
    forall u :: u in db.wallets ==> WalletSound(db, u)
  }

  ghost predicate HoldSound(db: Db, i: nat)
    requires i < |db.holds|
  {
    var h := db.holds[i];
    && h.id == i
    && h.estimated > 0
    && h.scopes.user in db.wallets
    && match h.status
       case Reserved => h.settled.None? && h.released == 0
       case Settled => h.settled.Some? && h.settled.value >= 0 && h.released >= 0
                       && h.settled.value + h.released == h.estimated
       case Released => h.settled.None? && h.released == h.estimated
  }

  ghost predicate HoldsSound(db: Db) {
    && (forall i :: 0 <= i < |db.holds| ==> HoldSound(db, i))
    && (forall i, j :: 0 <= i < j < |db.holds| ==> db.holds[i].key != db.holds[j].key)
  }

  ghost predicate TxsSound(db: Db) {
    && (forall i :: 0 <= i < |db.txs| ==> db.txs[i].amount > 0 && db.txs[i].wallet in db.wallets)
    && (forall i, j :: 0 <= i < j < |db.txs| ==> db.txs[i].id != db.txs[j].id)
  }

  ghost predicate KeysUnique(ledger: seq<LedgerRow>) {
    forall i, j :: 0 <= i < j < |ledger| ==> ledger[i].key != ledger[j].key
  }

  // ---- the ledger's account of one reservation ------------------------------

  function RowsOf(ledger: seq<LedgerRow>, hold: nat): seq<LedgerRow> {
    if ledger == [] then []
    else
      var n := |ledger| - 1;
      RowsOf(ledger[..n], hold) + if ledger[n].resource == HoldOf(hold) then [ledger[n]] else []
  }

  ghost predicate RowIs(row: LedgerRow, h: Hold, suffix: string, amount: int, status: LedgerStatus) {
    row.scopes == h.scopes && row.key == h.key + suffix && row.amount == amount && row.status == status
  }

  /** The rows of a reservation in posting order: the hold; then nothing while it is open; then
      either the charge and the unused remainder, or the whole hold given back.  A settled
      reservation's estimate is the larger of what was first held and what was charged. */
  ghost predicate History(h: Hold, rows: seq<LedgerRow>) {
    && |rows| >= 1
    && var held := rows[0].amount;
    && held > 0
    && RowIs(rows[0], h, ":reservation", held, RowReserved)
    && match h.status
       case Reserved => |rows| == 1 && h.estimated == held
       case Released => |rows| == 2 && h.estimated == held
                        && RowIs(rows[1], h, ":release", held, RowReleased) && rows[1].kind == Reversal
       case Settled =>
         && h.settled.Some?
         && h.estimated == Max(held, h.settled.value)
         && |rows| == (if h.settled.value < held then 3 else 2)
         && RowIs(rows[1], h, ":settled", h.settled.value, RowSettled)
         && (h.settled.value < held ==>
               RowIs(rows[2], h, ":release", held - h.settled.value, RowReleased) && rows[2].kind == Reversal)
  }

  ghost predicate HistorySound(db: Db) {
    && (forall i :: 0 <= i < |db.holds| ==> History(db.holds[i], RowsOf(db.ledger, i)))
    && (forall k :: 0 <= k < |db.ledger| && db.ledger[k].resource.HoldOf? ==> db.ledger[k].resource.hold < |db.holds|)
  }

  /** Every refund row names a wallet transaction that exists. */
  ghost predicate RefundsKnown(db: Db) {
    forall x :: x in Refunded(db.ledger) ==> FindTx(db.txs, x).Some?
  }

  /** Everything about rows; the wallets' sums are kept apart. */
  ghost predicate RowsSound(db: Db) {
    HoldsSound(db) && TxsSound(db) && KeysUnique(db.ledger) && HistorySound(db) && RefundsKnown(db)
  }

  ghost predicate Sound(db: Db) {
    RowsSound(db) && WalletsSound(db)
  }

  // ---- small facts about appended rows --------------------------------------

  lemma RowsOfSnoc(ledger: seq<LedgerRow>, row: LedgerRow, hold: nat)
    ensures RowsOf(ledger + [row], hold) == RowsOf(ledger, hold) + if row.resource == HoldOf(hold) then [row] else []
  {
    assert (ledger + [row])[..|ledger|] == ledger;
  }

  /** Every row of a hold is in the ledger, and every ledger row about a hold is among its rows. */
  lemma {:induction false} RowsOfMembers(ledger: seq<LedgerRow>, hold: nat)
    ensures forall r :: r in RowsOf(ledger, hold) <==> r in ledger && r.resource == HoldOf(hold)
  {
    if ledger != [] {
      RowsOfMembers(ledger[..|ledger| - 1], hold);
      assert ledger == ledger[..|ledger| - 1] + [ledger[|ledger| - 1]];
    }
  }

  lemma RefundedSnoc(ledger: seq<LedgerRow>, row: LedgerRow)
    ensures Refunded(ledger + [row]) == Refunded(ledger) + if IsRefundRow(row) then {row.resource.tx} else {}
  {
    var l := ledger + [row];
    forall x | x in Refunded(ledger)
      ensures x in Refunded(l)
    {
      var i :| 0 <= i < |ledger| && IsRefundRow(ledger[i]) && ledger[i].resource.tx == x;
      assert l[i] == ledger[i];
    }
    assert l[|ledger|] == row;
  }

  lemma {:induction false} NoRows(ledger: seq<LedgerRow>, hold: nat)
    requires forall k :: 0 <= k < |ledger| ==> ledger[k].resource != HoldOf(hold)
    ensures RowsOf(ledger, hold) == []
  {
    if ledger != [] {
      NoRows(ledger[..|ledger| - 1], hold);
    }
  }

  lemma KeysUniqueSnoc(ledger: seq<LedgerRow>, row: LedgerRow)
    requires KeysUnique(ledger) && !HasKey(ledger, row.key)
    ensures KeysUnique(ledger + [row])
  {
  }

  /** A user without a wallet has no holds and no debits. */
  lemma NothingForStranger(db: Db, u: Id)
    requires HoldsSound(db) && TxsSound(db) && u !in db.wallets
    ensures Sum(db.holds, OpenHold(u)) == 0 && Sum(db.holds, SettledHold(u)) == 0
    ensures Sum(db.txs, UnrefundedDebit(u, Refunded(db.ledger))) == 0 && Sum(db.txs, CreditTo(u)) == 0
  {
    forall i | 0 <= i < |db.holds|
      ensures db.holds[i].scopes.user != u
    {
      assert HoldSound(db, i);
    }
    SumZero(db.holds, OpenHold(u));
    SumZero(db.holds, SettledHold(u));
    SumZero(db.txs, UnrefundedDebit(u, Refunded(db.ledger)));
    SumZero(db.txs, CreditTo(u));
  }

  // ---- a hold is opened -----------------------------------------------------

  ghost predicate CanOpen(db: Db, h: Hold) {
    && h.id == |db.holds|
    && h.status == Reserved && h.settled.None? && h.released == 0 && h.estimated > 0
    && FindHold(db.holds, h.key).None?
    && !HasKey(db.ledger, h.key + ":reservation")
    && WalletOrNew(db, h.scopes.user).balance >= h.estimated
  }

  lemma OpenKeepsRows(db: Db, h: Hold)
    requires RowsSound(db) && CanOpen(db, h)
    ensures RowsSound(Opened(db, h))
    ensures Refunded(Opened(db, h).ledger) == Refunded(db.ledger)
  {
    hide RowsOf;
    var db' := Opened(db, h);
    var row := ReservationRow(h);
    RefundedSnoc(db.ledger, row);
    forall i | 0 <= i < |db'.holds|
      ensures HoldSound(db', i) && History(db'.holds[i], RowsOf(db'.ledger, i))
    {
      RowsOfSnoc(db.ledger, row, i);
      if i < |db.holds| {
        assert HoldSound(db, i);
      } else {
        NoRows(db.ledger, i);
      }
    }
  }

  lemma OpenKeepsWallets(db: Db, h: Hold)
    requires Sound(db) && CanOpen(db, h)
    requires Refunded(Opened(db, h).ledger) == Refunded(db.ledger)
    ensures WalletsSound(Opened(db, h))
  {
    hide Sum, FindTx, RowsOf;
    var db' := Opened(db, h);
    forall u | u in db'.wallets
      ensures WalletSound(db', u)
    {
      SumSnoc(db.holds, h, OpenHold(u));
      SumSnoc(db.holds, h, SettledHold(u));
      if u !in db.wallets {
        NothingForStranger(db, u);
      } else {
        assert WalletSound(db, u);
      }
    }
  }

  lemma ReserveKeepsSound(db: Db, req: ReserveRequest, now: Time)
    requires Sound(db)
    ensures Sound(ReserveStep(db, req, now).0)
  {
    var h := NewHold(db, req, now);
    if CanOpen(db, h) {
      OpenKeepsRows(db, h);
      OpenKeepsWallets(db, h);
    }
  }

  // ---- a hold is closed -----------------------------------------------------

  /** The shape shared by settle and release: hold `id` becomes `h'`, `actual` is spent, the rest
      of the hold returns to the balance, and `rows` are posted. */
  ghost predicate Closes(db: Db, db': Db, id: nat, h': Hold, actual: int, rows: seq<LedgerRow>) {
    && id < |db.holds|
    && var h := db.holds[id];
    && h.status == Reserved
    && h.scopes.user in db.wallets
    && var w := db.wallets[h.scopes.user];
    && db'.wallets == db.wallets[h.scopes.user := w.(balance := w.balance + h.estimated - actual,
                                                      reserved := w.reserved - h.estimated,
                                                      spent := w.spent + actual)]
    && w.balance + h.estimated >= actual
    && db'.holds == db.holds[id := h']
    && db'.ledger == db.ledger + rows
    && db'.txs == db.txs
    && h'.key == h.key && h'.scopes == h.scopes && h'.status != Reserved
    && actual == (if h'.settled.Some? then h'.settled.value else 0)
    && HoldSound(db', id)
    && 1 <= |rows| <= 2
    && (forall k :: 0 <= k < |rows| ==> rows[k].resource == HoldOf(id) && !HasKey(db.ledger, rows[k].key))
    && (|rows| == 2 ==> rows[0].key != rows[1].key)
    && History(h', RowsOf(db.ledger, id) + rows)
  }

  lemma CloseKeepsLedger(db: Db, db': Db, id: nat, h': Hold, actual: int, rows: seq<LedgerRow>)
    requires KeysUnique(db.ledger) && Closes(db, db', id, h', actual, rows)
    ensures KeysUnique(db'.ledger)
    ensures Refunded(db'.ledger) == Refunded(db.ledger)
    ensures forall i: nat :: RowsOf(db'.ledger, i) == RowsOf(db.ledger, i) + if i == id then rows else []
  {
    hide RowsOf;
    var mid := db.ledger + [rows[0]];
    KeysUniqueSnoc(db.ledger, rows[0]);
    RefundedSnoc(db.ledger, rows[0]);
    if |rows| == 2 {
      assert db'.ledger == mid + [rows[1]];
      assert !HasKey(mid, rows[1].key);
      KeysUniqueSnoc(mid, rows[1]);
      RefundedSnoc(mid, rows[1]);
    } else {
      assert db'.ledger == mid;
    }
    forall i: nat
      ensures RowsOf(db'.ledger, i) == RowsOf(db.ledger, i) + if i == id then rows else []
    {
      RowsOfSnoc(db.ledger, rows[0], i);
      if |rows| == 2 {
        RowsOfSnoc(mid, rows[1], i);
        assert RowsOf(db.ledger, i) + [rows[0]] + [rows[1]] == RowsOf(db.ledger, i) + rows;
      } else {
        assert [rows[0]] == rows;
      }
    }
  }

  lemma CloseKeepsRows(db: Db, db': Db, id: nat, h': Hold, actual: int, rows: seq<LedgerRow>)
    requires RowsSound(db) && Closes(db, db', id, h', actual, rows)
    ensures RowsSound(db')
  {
    hide RowsOf;
    CloseKeepsLedger(db, db', id, h', actual, rows);
    assert HoldSound(db, id);
    forall i | 0 <= i < |db'.holds|
      ensures HoldSound(db', i) && History(db'.holds[i], RowsOf(db'.ledger, i))
    {
      if i != id {
        assert HoldSound(db, i);
        assert RowsOf(db'.ledger, i) == RowsOf(db.ledger, i);
      }
    }
  }

  lemma CloseKeepsWallets(db: Db, db': Db, id: nat, h': Hold, actual: int, rows: seq<LedgerRow>)
    requires WalletsSound(db) && Closes(db, db', id, h', actual, rows)
    requires Refunded(db'.ledger) == Refunded(db.ledger)
    requires db.holds[id].settled.None?
    ensures WalletsSound(db')
  {
    hide Sum, FindTx, RowsOf;
    forall u | u in db'.wallets
      ensures WalletSound(db', u)
    {
      assert WalletSound(db, u);
      SumUpdate(db.holds, id, h', OpenHold(u));
      SumUpdate(db.holds, id, h', SettledHold(u));
    }
  }

  lemma CloseKeepsSound(db: Db, db': Db, id: nat, h': Hold, actual: int, rows: seq<LedgerRow>)
    requires Sound(db) && Closes(db, db', id, h', actual, rows)
    ensures Sound(db')
  {
    assert HoldSound(db, id);
    CloseKeepsRows(db, db', id, h', actual, rows);
    CloseKeepsLedger(db, db', id, h', actual, rows);
    CloseKeepsWallets(db, db', id, h', actual, rows);
  }

  /** Different endings of the same key are different keys. */
  lemma KeysDiffer(key: string, a: string, b: string)
    requires a != b
    ensures key + a != key + b
  {
    assert (key + a)[|key|..] == a && (key + b)[|key|..] == b;
  }

  lemma SettleCloses(db: Db, id: nat, actual: int, c: Charge)
    requires id < |db.holds| && db.holds[id].status == Reserved && db.holds[id].id == id
    requires db.holds[id].estimated > 0 && db.holds[id].scopes.user in db.wallets
    requires db.wallets[db.holds[id].scopes.user].balance >= 0
    requires SettleRefusal(db, id, actual, c.now).None?
    requires History(db.holds[id], RowsOf(db.ledger, id))
    ensures var db' := SettledDb(db, id, actual, c);
            Closes(db, db', id, db'.holds[id], actual, SettlementRows(db.holds[id], actual, c))
  {
    KeysDiffer(db.holds[id].key, ":settled", ":release");
  }

  lemma SettleKeepsSound(db: Db, id: nat, actualAmount: real, c: Charge)
    requires Sound(db)
    ensures Sound(SettleStep(db, id, actualAmount, c).0)
  {
    var actual := Money.Round(actualAmount);
    if id < |db.holds| && db.holds[id].status == Reserved && SettleRefusal(db, id, actual, c.now).None? {
      assert HoldSound(db, id);
      assert WalletSound(db, db.holds[id].scopes.user);
      SettleCloses(db, id, actual, c);
      var db' := SettledDb(db, id, actual, c);
      CloseKeepsSound(db, db', id, db'.holds[id], actual, SettlementRows(db.holds[id], actual, c));
    }
  }

  lemma ReleaseCloses(db: Db, id: nat, now: Time)
    requires id < |db.holds| && db.holds[id].status == Reserved && db.holds[id].id == id
    requires db.holds[id].estimated > 0 && db.holds[id].settled.None? && db.holds[id].scopes.user in db.wallets
    requires db.wallets[db.holds[id].scopes.user].balance >= 0
    requires !HasKey(db.ledger, db.holds[id].key + ":release")
    requires History(db.holds[id], RowsOf(db.ledger, id))
    ensures var db' := ReleasedDb(db, id, now);
            Closes(db, db', id, db'.holds[id], 0, [ReleaseRow(db.holds[id], db.holds[id].estimated, now)])
  {
  }

  lemma ReleaseKeepsSound(db: Db, id: nat, now: Time)
    requires Sound(db)
    ensures Sound(ReleaseStep(db, id, now).0)
  {
    if id < |db.holds| && db.holds[id].status == Reserved && !HasKey(db.ledger, db.holds[id].key + ":release") {
      var h := db.holds[id];
      assert HoldSound(db, id);
      assert WalletSound(db, h.scopes.user);
      ReleaseCloses(db, id, now);
      var db' := ReleasedDb(db, id, now);
      CloseKeepsSound(db, db', id, db'.holds[id], 0, [ReleaseRow(h, h.estimated, now)]);
    }
  }

  lemma {:induction false} ReleaseAllKeepsSound(db: Db, ids: seq<nat>, now: Time)
    requires Sound(db)
    ensures Sound(ReleaseAll(db, ids, now).0)
  {
    if ids != [] {
      ReleaseAllKeepsSound(db, ids[..|ids| - 1], now);
      ReleaseKeepsSound(ReleaseAll(db, ids[..|ids| - 1], now).0, ids[|ids| - 1], now);
    }
  }

  // ---- wallet transactions --------------------------------------------------

  lemma HoldsKeepSound(db: Db, db': Db)
    requires RowsSound(db) && db'.holds == db.holds && db'.ledger == db.ledger && db'.txs == db.txs
    requires db.wallets.Keys <= db'.wallets.Keys
    ensures RowsSound(db')
  {
    hide RowsOf, FindTx;
    forall i | 0 <= i < |db'.holds|
      ensures HoldSound(db', i)
    {
      assert HoldSound(db, i);
    }
  }

  lemma GetWalletKeepsWallets(db: Db, user: Id)
    requires HoldsSound(db) && TxsSound(db) && WalletsSound(db)
    ensures WalletsSound(GetWallet(db, user))
  {
    hide Sum;
    var db' := GetWallet(db, user);
    forall u | u in db'.wallets
      ensures WalletSound(db', u)
    {
      if u in db.wallets {
        assert WalletSound(db, u);
      } else {
        NothingForStranger(db, u);
      }
    }
  }

  lemma GetWalletKeepsSound(db: Db, user: Id)
    requires Sound(db)
    ensures Sound(GetWallet(db, user))
  {
    hide WalletsSound, HistorySound, KeysUnique, RefundsKnown;
    HoldsKeepSound(db, GetWallet(db, user));
    GetWalletKeepsWallets(db, user);
  }

  /** A wallet transaction and its ledger row leave the reservations' side alone. */
  lemma MoveKeepsRows(db: Db, db': Db, t: WalletTx, row: LedgerRow)
    requires RowsSound(db)
    requires db'.holds == db.holds && db'.txs == db.txs + [t] && db'.ledger == db.ledger + [row]
    requires db'.wallets.Keys == db.wallets.Keys
    requires t.amount > 0 && t.wallet in db.wallets && !Clashes(db, t.id, row)
    requires !row.resource.HoldOf?
    requires IsRefundRow(row) ==> FindTx(db.txs, row.resource.tx).Some?
    ensures RowsSound(db')
    ensures Refunded(db'.ledger) == Refunded(db.ledger) + if IsRefundRow(row) then {row.resource.tx} else {}
  {
    hide RowsOf;
    RefundedSnoc(db.ledger, row);
    forall i | 0 <= i < |db'.holds|
      ensures HoldSound(db', i) && History(db'.holds[i], RowsOf(db'.ledger, i))
    {
      assert HoldSound(db, i);
      RowsOfSnoc(db.ledger, row, i);
    }
    forall x | x in Refunded(db'.ledger)
      ensures FindTx(db'.txs, x).Some?
    {
      var n := FindTx(db.txs, x).value;
      assert db'.txs[n].id == x;
    }
  }

  lemma CreditKeepsWallets(db: Db, t: WalletTx, row: LedgerRow)
    requires WalletsSound(db) && t.wallet in db.wallets
    requires t.amount > 0 && t.kind == Credit
    requires Refunded(CreditedDb(db, t, row).ledger) == Refunded(db.ledger)
    ensures WalletsSound(CreditedDb(db, t, row))
  {
    hide Sum, FindTx, RowsOf;
    var db' := CreditedDb(db, t, row);
    forall u | u in db'.wallets
      ensures WalletSound(db', u)
    {
      assert WalletSound(db, u);
      SumSnoc(db.txs, t, UnrefundedDebit(u, Refunded(db.ledger)));
      SumSnoc(db.txs, t, CreditTo(u));
    }
  }

  lemma CreditKeepsSound(db: Db, t: WalletTx, row: LedgerRow)
    requires Sound(db) && t.wallet in db.wallets
    requires t.amount > 0 && t.kind == Credit && !Clashes(db, t.id, row)
    requires row.resource.Named?
    ensures Sound(CreditedDb(db, t, row))
  {
    var db' := CreditedDb(db, t, row);
    MoveKeepsRows(db, db', t, row);
    assert Refunded(db'.ledger) == Refunded(db.ledger);
    CreditKeepsWallets(db, t, row);
  }

  lemma DebitKeepsWallets(db: Db, t: WalletTx, row: LedgerRow)
    requires WalletsSound(db) && t.wallet in db.wallets
    requires t.amount > 0 && t.kind == Debit && t.id !in Refunded(db.ledger)
    requires db.wallets[t.wallet].balance >= t.amount
    requires Refunded(DebitedDb(db, t, row).ledger) == Refunded(db.ledger)
    ensures WalletsSound(DebitedDb(db, t, row))
  {
    hide Sum, FindTx, RowsOf;
    var db' := DebitedDb(db, t, row);
    forall u | u in db'.wallets
      ensures WalletSound(db', u)
    {
      assert WalletSound(db, u);
      SumSnoc(db.txs, t, UnrefundedDebit(u, Refunded(db.ledger)));
      SumSnoc(db.txs, t, CreditTo(u));
    }
  }

  /** A debit's id is new and refunded ids are old, so it starts out unrefunded. */
  lemma DebitKeepsSound(db: Db, t: WalletTx, row: LedgerRow)
    requires Sound(db) && t.wallet in db.wallets
    requires t.amount > 0 && t.kind == Debit && !Clashes(db, t.id, row)
    requires db.wallets[t.wallet].balance >= t.amount
    requires row.resource.Named?
    ensures Sound(DebitedDb(db, t, row))
  {
    var db' := DebitedDb(db, t, row);
    MoveKeepsRows(db, db', t, row);
    assert Refunded(db'.ledger) == Refunded(db.ledger);
    DebitKeepsWallets(db, t, row);
  }

  /** Refunding a debit takes exactly its amount out of the unrefunded debits of its wallet. */
  lemma RefundTakesOne(txs: seq<WalletTx>, n: nat, user: Id, refunded: set<Id>)
    requires n < |txs| && txs[n].kind == Debit && txs[n].id !in refunded
    requires forall i, j :: 0 <= i < j < |txs| ==> txs[i].id != txs[j].id
    ensures Sum(txs, UnrefundedDebit(user, refunded + {txs[n].id}))
         == Sum(txs, UnrefundedDebit(user, refunded)) - if txs[n].wallet == user then txs[n].amount else 0
  {
    SumDiffersAt(txs, n, UnrefundedDebit(user, refunded), UnrefundedDebit(user, refunded + {txs[n].id}));
  }

  /** The clamp in a refund never bites: a debit not yet refunded is still part of what was spent. */
  lemma RefundClampIdle(db: Db, n: nat)
    requires Sound(db)
    requires n < |db.txs| && db.txs[n].kind == Debit && !AlreadyRefundedIn(db.ledger, db.txs[n].id)
    ensures db.txs[n].wallet in db.wallets
    ensures 0 < db.txs[n].amount <= db.wallets[db.txs[n].wallet].spent
  {
    var user := db.txs[n].wallet;
    assert WalletSound(db, user);
    var f := UnrefundedDebit(user, Refunded(db.ledger));
    SumAtLeast(db.txs, f);
    assert f(db.txs[n]) == db.txs[n].amount;
    forall i | 0 <= i < |db.holds|
      ensures SettledHold(user)(db.holds[i]) >= 0
    {
      assert HoldSound(db, i);
    }
    SumAtLeast(db.holds, SettledHold(user));
  }

  lemma RefundKeepsWallets(db: Db, n: nat, t: WalletTx, row: LedgerRow)
    requires WalletsSound(db) && n < |db.txs| && db.txs[n].kind == Debit && db.txs[n].id !in Refunded(db.ledger)
    requires forall i, j :: 0 <= i < j < |db.txs| ==> db.txs[i].id != db.txs[j].id
    requires t.kind == Refund && t.wallet == db.txs[n].wallet && t.amount == db.txs[n].amount > 0
    requires t.wallet in db.wallets && t.amount <= db.wallets[t.wallet].spent
    requires Refunded(RefundedDb(db, t, row).ledger) == Refunded(db.ledger) + {db.txs[n].id}
    ensures WalletsSound(RefundedDb(db, t, row))
  {
    hide Sum, FindTx, RowsOf;
    var db' := RefundedDb(db, t, row);
    forall u | u in db'.wallets
      ensures WalletSound(db', u)
    {
      assert WalletSound(db, u);
      RefundTakesOne(db.txs, n, u, Refunded(db.ledger));
      SumSnoc(db.txs, t, UnrefundedDebit(u, Refunded(db'.ledger)));
      SumSnoc(db.txs, t, CreditTo(u));
    }
  }

  lemma RefundKeepsSound(db: Db, n: nat, txId: Id, now: Time)
    requires Sound(db)
    requires n < |db.txs| && db.txs[n].kind == Debit && !AlreadyRefundedIn(db.ledger, db.txs[n].id)
    requires !Clashes(db, txId, RefundRow(db.txs[n], now))
    ensures Sound(RefundedDb(db, RefundTx(db, db.txs[n], txId), RefundRow(db.txs[n], now)))
  {
    hide WalletsSound, HistorySound, HoldsSound, KeysUnique, RefundsKnown, Clashes;
    var t, row := RefundTx(db, db.txs[n], txId), RefundRow(db.txs[n], now);
    var db' := RefundedDb(db, t, row);
    RefundClampIdle(db, n);
    MoveKeepsRows(db, db', t, row);
    RefundKeepsWallets(db, n, t, row);
  }

  lemma AddCreditKeepsSound(db: Db, user: Id, amount: int, reference: Option<string>, txId: Id, now: Time)
    requires Sound(db)
    ensures Sound(AddCreditStep(db, user, amount, reference, txId, now).0)
  {
    var db1, row := GetWallet(db, user), TopUpRow(user, amount, reference, txId, now);
    hide Sound;
    GetWalletKeepsSound(db, user);
    if amount > 0 && !Clashes(db1, txId, row) {
      CreditKeepsSound(db1, CreditTx(db1, user, amount, reference, txId), row);
    }
  }

  lemma DeductCreditKeepsSound(db: Db, user: Id, amount: int, reference: Option<string>, txId: Id, now: Time)
    requires Sound(db)
    ensures Sound(DeductCreditStep(db, user, amount, reference, txId, now).0)
  {
    var db1, row := GetWallet(db, user), DebitRow(user, amount, reference, txId, now);
    hide Sound;
    GetWalletKeepsSound(db, user);
    if amount > 0 && !Clashes(db1, txId, row) && db1.wallets[user].balance >= amount {
      DebitKeepsSound(db1, DebitTx(db1, user, amount, reference, txId), row);
    }
  }

  lemma RefundStepKeepsSound(db: Db, user: Id, original: Id, txId: Id, now: Time)
    requires Sound(db)
    ensures Sound(RefundStep(db, user, original, txId, now).0)
  {
    hide Sound;
    if RefundStep(db, user, original, txId, now).1.Done? {
      RefundKeepsSound(db, FindTx(db.txs, original).value, txId, now);
    }
  }

  lemma SetStatusKeepsSound(db: Db, user: Id, status: WalletStatus)
    requires Sound(db)
    ensures Sound(SetStatus(db, user, status))
  {
    hide RowsSound, Sum;
    var db' := SetStatus(db, user, status);
    HoldsKeepSound(db, db');
    forall u | u in db'.wallets
      ensures WalletSound(db', u)
    {
      assert WalletSound(db, u);
    }
  }

  /** Budgets have no part in it. */
  lemma BudgetsKeepSound(db: Db, budgets: map<Id, Budget>)
    requires Sound(db)
    ensures Sound(db.(budgets := budgets))
  {
    hide RowsSound, Sum;
    var db' := db.(budgets := budgets);
    HoldsKeepSound(db, db');
    forall u | u in db'.wallets
      ensures WalletSound(db', u)
    {
      assert WalletSound(db, u);
    }
  }

  // ---- every run ------------------------------------------------------------

  lemma ApplyKeepsSound(db: Db, c: Call)
    requires Sound(db)
    ensures Sound(Apply(db, c))
  {
    hide Sound, AddCreditStep, DeductCreditStep, RefundStep, ReserveStep, SettleStep, ReleaseStep, ReleaseAll, SetStatus, BudgetStep;
    match c.op
    case OpAddCredit(user, amount, reference, txId) => AddCreditKeepsSound(db, user, amount, reference, txId, c.now);
    case OpDeductCredit(user, amount, reference, txId) => DeductCreditKeepsSound(db, user, amount, reference, txId, c.now);
    case OpRefund(user, original, txId) => RefundStepKeepsSound(db, user, original, txId, c.now);
    case OpReserve(request) => ReserveKeepsSound(db, request, c.now);
    case OpSettle(id, actual, kind, providerCost) => SettleKeepsSound(db, id, actual, Charge(kind, providerCost, c.now));
    case OpRelease(id) => ReleaseKeepsSound(db, id, c.now);
    case OpExpire(limit) => ReleaseAllKeepsSound(db, ExpiryBatch(db, limit, c.now), c.now);
    case OpSetStatus(user, status) => SetStatusKeepsSound(db, user, status);
    case OpBudget(change) => BudgetsKeepSound(db, BudgetStep(db.budgets, change));
  }

  ghost predicate NothingNegative(w: Wallet) {
    w.balance >= 0 && w.reserved >= 0 && w.spent >= 0 && w.topups >= 0
  }

  /** The sums are of nonnegative amounts. */
  lemma SoundIsNonNegative(db: Db, user: Id)
    requires Sound(db) && user in db.wallets
    ensures NothingNegative(db.wallets[user])
  {
    hide HistorySound, KeysUnique, RefundsKnown;
    assert WalletSound(db, user);
    forall i | 0 <= i < |db.holds|
      ensures OpenHold(user)(db.holds[i]) >= 0 && SettledHold(user)(db.holds[i]) >= 0
    {
      assert HoldSound(db, i);
    }
    SumAtLeast(db.holds, OpenHold(user));
    SumAtLeast(db.holds, SettledHold(user));
    SumAtLeast(db.txs, UnrefundedDebit(user, Refunded(db.ledger)));
    SumAtLeast(db.txs, CreditTo(user));
  }

  /** Every state any sequence of calls can reach is sound: in each wallet nothing is negative,
      balance, reserved part and spend add up to the top-ups, the reserved part is the sum of the open
      holds, and every reservation's ledger rows tell exactly its state. */
  lemma {:induction false} RunsAreSound(budgets: map<Id, Budget>, limits: seq<SpendingLimit>, calls: seq<Call>)
    ensures Sound(Run(Initial(budgets, limits), calls))
    ensures var db := Run(Initial(budgets, limits), calls);
            forall u :: u in db.wallets ==> NothingNegative(db.wallets[u])
  {
    if calls == [] {
      assert Refunded([]) == {};
    } else {
      var n := |calls| - 1;
      RunsAreSound(budgets, limits, calls[..n]);
      ApplyKeepsSound(Run(Initial(budgets, limits), calls[..n]), calls[n]);
      var db := Run(Initial(budgets, limits), calls);
      hide Sound, NothingNegative, Run, Apply;
      forall u | u in db.wallets
        ensures NothingNegative(db.wallets[u])
      {
        SoundIsNonNegative(db, u);
      }
    }
  }
}
