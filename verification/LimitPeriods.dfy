/** What the spending limit check counts, told by the calendar: days, and months whose first days are found by
    adding up whole years and whole months. */
module LimitPeriods {
  import opened Common
  import opened BillingModel

  // ---- the calendar ---------------------------------------------------------

  predicate Leap(year: nat) {
    year % 4 == 0 && (year % 100 != 0 || year % 400 == 0)
  }

  /** The days of the whole years from 1970 up to a year. */
  function YearDays(year: nat): nat {
    if year <= 1970 then 0 else YearDays(year - 1) + if Leap(year - 1) then 366 else 365
  }

  /** The days of a common year before each month. */
  const BEFORE_MONTH: seq<nat> := [0, 31, 59, 90, 120, 151, 181, 212, 243, 273, 304, 334]

  /** The first day of a month, counted from the first of January 1970. */
  function FirstDay(year: nat, month: nat): nat
    requires 1 <= month <= 12
  {
    YearDays(year) + BEFORE_MONTH[month - 1] + if Leap(year) && month > 2 then 1 else 0
  }

  function NextFirstDay(year: nat, month: nat): nat
    requires 1 <= month <= 12
  {
    if month == 12 then FirstDay(year + 1, 1) else FirstDay(year, month + 1)
  }

  /** Months numbered from January 1970. */
  function FirstOf(k: nat): nat {
    FirstDay(1970 + k / 12, 1 + k % 12)
  }

  lemma NextMonth(k: nat)
    ensures FirstOf(k + 1) == NextFirstDay(1970 + k / 12, 1 + k % 12)
    ensures FirstOf(k + 1) == FirstOf(k) + DaysInMonth(1970 + k / 12, 1 + k % 12) > FirstOf(k)
  {
    var year, month := 1970 + k / 12, 1 + k % 12;
    MonthLength(year, month);
    hide FirstDay;
    if month == 12 {
      assert (k + 1) / 12 == k / 12 + 1 && (k + 1) % 12 == 0;
    } else {
      assert (k + 1) / 12 == k / 12 && (k + 1) % 12 == k % 12 + 1;
    }
  }

  lemma MonthLength(year: nat, month: nat)
    requires year >= 1970 && 1 <= month <= 12
    ensures NextFirstDay(year, month) == FirstDay(year, month) + DaysInMonth(year, month)
  {
    assert YearDays(year + 1) == YearDays(year) + if Leap(year) then 366 else 365;
  }

  lemma {:induction false} MonthsInOrder(j: nat, k: nat)
    requires j <= k
    ensures FirstOf(j) <= FirstOf(k) && (j < k ==> FirstOf(j) < FirstOf(k))
    decreases k - j
  {
    hide FirstOf;
    if j < k {
      NextMonth(j);
      MonthsInOrder(j + 1, k);
    }
  }

  lemma {:induction false} MonthExists(day: nat, k: nat)
    requires FirstOf(k) <= day
    ensures exists m: nat :: FirstOf(m) <= day < FirstOf(m + 1)
    decreases day - FirstOf(k)
  {
    hide FirstOf;
    NextMonth(k);
    if day >= FirstOf(k + 1) {
      MonthExists(day, k + 1);
    }
  }

  /** The month of a day. */
  ghost function MonthOf(day: nat): (m: nat)
    ensures FirstOf(m) <= day < FirstOf(m + 1)
  {
    assert FirstOf(0) == 0;
    MonthExists(day, 0);
    var m: nat :| FirstOf(m) <= day < FirstOf(m + 1);
    m
  }

  lemma MonthIsOne(day: nat, k: nat)
    requires FirstOf(k) <= day < FirstOf(k + 1)
    ensures k == MonthOf(day)
  {
    hide FirstOf;
    var m := MonthOf(day);
    if m < k {
      MonthsInOrder(m + 1, k);
    } else if k < m {
      MonthsInOrder(k + 1, m);
    }
  }

  lemma {:induction false} MonthStartIs(day: nat, k: nat)
    requires FirstOf(k) <= day
    ensures MonthStartDay(day, FirstOf(k), 1970 + k / 12, 1 + k % 12) == FirstOf(MonthOf(day))
    decreases day - FirstOf(k)
  {
    hide FirstOf, DaysInMonth;
    NextMonth(k);
    if day < FirstOf(k + 1) {
      MonthIsOne(day, k);
    } else {
      assert 1 + k % 12 == 12 ==> (k + 1) / 12 == k / 12 + 1 && (k + 1) % 12 == 0;
      assert 1 + k % 12 < 12 ==> (k + 1) / 12 == k / 12 && (k + 1) % 12 == k % 12 + 1;
      MonthStartIs(day, k + 1);
    }
  }

  // ---- the periods ----------------------------------------------------------

  /** The daily period starts at the one midnight that is not after `now` and less than a day before. */
  lemma DailyStartIff(now: Time, start: Time)
    ensures PeriodStart(Daily, now) == start <==> start % DAY == 0 && start <= now < start + DAY
  {
  }

  lemma MonthlyStart(now: Time)
    ensures var k := MonthOf(now / DAY);
            PeriodStart(Monthly, now) == FirstOf(k) * DAY && FirstOf(k) * DAY <= now < FirstOf(k + 1) * DAY
  {
    assert FirstOf(0) == 0;
    MonthStartIs(now / DAY, 0);
    hide FirstOf;
  }

  /** The monthly period starts at the one first-of-month midnight that is not after `now` while the next is. */
  lemma MonthlyStartIff(now: Time, start: Time)
    ensures PeriodStart(Monthly, now) == start
       <==> exists year: nat, month: nat :: year >= 1970 && 1 <= month <= 12 && start == FirstDay(year, month) * DAY
              && start <= now < NextFirstDay(year, month) * DAY
  {
    hide PeriodStart, FirstDay, NextFirstDay;
    MonthlyStart(now);
    var k := MonthOf(now / DAY);
    NextMonth(k);
    assert FirstDay(1970 + k / 12, 1 + k % 12) == FirstOf(k);
    hide FirstOf, MonthOf;
    forall year: nat, month: nat | year >= 1970 && 1 <= month <= 12 && FirstDay(year, month) * DAY <= now < NextFirstDay(year, month) * DAY
      ensures FirstDay(year, month) == FirstOf(k)
    {
      MonthHolding(now, year, month);
    }
  }

  lemma DayBounds(now: Time, a: nat, b: nat)
    ensures a <= now / DAY < b <==> a * DAY <= now < b * DAY
  {
  }

  lemma MonthHolding(now: Time, year: nat, month: nat)
    requires year >= 1970 && 1 <= month <= 12 && FirstDay(year, month) * DAY <= now < NextFirstDay(year, month) * DAY
    ensures FirstDay(year, month) == FirstOf(MonthOf(now / DAY))
  {
    hide FirstDay, NextFirstDay;
    var j := 12 * (year - 1970) + month - 1;
    assert j / 12 == year - 1970 && j % 12 == month - 1;
    NextMonth(j);
    DayBounds(now, FirstDay(year, month), NextFirstDay(year, month));
    MonthIsOne(now / DAY, j);
  }

  /** Whether a time is in the period of `now` or later. */
  ghost predicate InPeriod(period: Period, t: Time, now: Time) {
    match period
    case Daily => t / DAY >= now / DAY
    case Monthly => MonthOf(t / DAY) >= MonthOf(now / DAY)
    case Lifetime => true
  }

  lemma InPeriodIff(period: Period, t: Time, now: Time)
    ensures t >= PeriodStart(period, now) <==> InPeriod(period, t, now)
  {
    match period
    case Daily => DailyStartIff(now, PeriodStart(Daily, now));
    case Lifetime =>
    case Monthly => MonthsIff(t, now);
  }

  lemma MonthsIff(t: Time, now: Time)
    ensures t >= PeriodStart(Monthly, now) <==> MonthOf(t / DAY) >= MonthOf(now / DAY)
  {
    hide PeriodStart, FirstOf;
    var k, m := MonthOf(now / DAY), MonthOf(t / DAY);
    hide MonthOf;
    MonthlyStart(now);
    DayAtLeast(t, FirstOf(k));
    if m < k {
      MonthsInOrder(m + 1, k);
    } else {
      MonthsInOrder(k, m);
    }
  }

  lemma DayAtLeast(t: Time, day: nat)
    ensures t >= day * DAY <==> t / DAY >= day
  {
  }

  // ---- the check ------------------------------------------------------------

  /** A settled charge of a spending type counts against a limit when it is in the limit's scope and period. */
  ghost function CountedSpend(l: SpendingLimit, now: Time): LedgerRow -> int {
    (row: LedgerRow) =>
      if row.status == RowSettled && row.kind in SPENDING_TYPES && row.scopes.Get(l.scope) == Some(l.scopeId)
         && InPeriod(l.period, row.createdAt, now)
      then row.amount else 0
  }

  /** So does an open hold, but for the one that is left out. */
  ghost function CountedHold(l: SpendingLimit, now: Time, exclude: Option<nat>): Hold -> int {
    (h: Hold) =>
      if h.status == Reserved && h.scopes.Get(l.scope) == Some(l.scopeId) && InPeriod(l.period, h.createdAt, now)
         && exclude != Some(h.id)
      then h.estimated else 0
  }

  ghost function Counted(db: Db, l: SpendingLimit, now: Time, exclude: Option<nat>): int {
    Sum(db.ledger, CountedSpend(l, now)) + Sum(db.holds, CountedHold(l, now, exclude))
  }

  lemma ProjectedIsCounted(db: Db, l: SpendingLimit, amount: int, now: Time, exclude: Option<nat>)
    ensures Projected(db, l, amount, now, exclude) == Counted(db, l, now, exclude) + amount
  {
    hide PeriodStart, Sum, InPeriod;
    var start := PeriodStart(l.period, now);
    forall i | 0 <= i < |db.ledger|
      ensures SpendUnder(l.scope, l.scopeId, start)(db.ledger[i]) == CountedSpend(l, now)(db.ledger[i])
    {
      InPeriodIff(l.period, db.ledger[i].createdAt, now);
    }
    SumAgree(db.ledger, SpendUnder(l.scope, l.scopeId, start), CountedSpend(l, now));
    forall i | 0 <= i < |db.holds|
      ensures HeldUnder(l.scope, l.scopeId, start, exclude)(db.holds[i]) == CountedHold(l, now, exclude)(db.holds[i])
    {
      InPeriodIff(l.period, db.holds[i].createdAt, now);
    }
    SumAgree(db.holds, HeldUnder(l.scope, l.scopeId, start, exclude), CountedHold(l, now, exclude));
  }

  /** A limit that applies to a charge and has no room for it. */
  ghost predicate Violated(db: Db, l: SpendingLimit, amount: int, scopes: Scopes, now: Time, exclude: Option<nat>) {
    l.active && scopes.Get(l.scope) == Some(l.scopeId) && Counted(db, l, now, exclude) + amount > l.amount
  }

  function Rank(kind: ScopeKind): nat {
    match kind
    case UserScope => 0
    case OrganizationScope => 1
    case ProjectScope => 2
    case RuntimeScope => 3
    case ApiKeyScope => 4
  }

  /** The violated limit that is reported: none of an earlier scope is violated, nor an earlier one of its scope. */
  ghost predicate Reported(db: Db, i: nat, amount: int, scopes: Scopes, now: Time, exclude: Option<nat>, e: Error)
    requires i < |db.limits|
  {
    var l := db.limits[i];
    && Violated(db, l, amount, scopes, now, exclude)
    && e == LimitExceeded(l.scope, l.period, l.amount, Counted(db, l, now, exclude) + amount)
    && (forall j :: 0 <= j < |db.limits| && Violated(db, db.limits[j], amount, scopes, now, exclude) ==>
          Rank(l.scope) < Rank(db.limits[j].scope) || (l.scope == db.limits[j].scope && i <= j))
  }

  lemma {:induction false} ScopeReports(db: Db, kind: ScopeKind, n: nat, amount: int, scopes: Scopes, now: Time, exclude: Option<nat>)
    requires n <= |db.limits|
    ensures var r := FirstInScope(db, kind, n, amount, scopes, now, exclude);
            && (r.None? ==> forall j :: n <= j < |db.limits| && db.limits[j].scope == kind ==>
                              !Violated(db, db.limits[j], amount, scopes, now, exclude))
            && (r.Some? ==> exists i :: n <= i < |db.limits| && db.limits[i].scope == kind
                              && Violated(db, db.limits[i], amount, scopes, now, exclude)
                              && r.value == LimitExceeded(kind, db.limits[i].period, db.limits[i].amount,
                                                          Counted(db, db.limits[i], now, exclude) + amount)
                              && forall j :: n <= j < i && db.limits[j].scope == kind ==>
                                   !Violated(db, db.limits[j], amount, scopes, now, exclude))
    decreases |db.limits| - n
  {
    hide Counted, Projected;
    if n < |db.limits| {
      ProjectedIsCounted(db, db.limits[n], amount, now, exclude);
      ScopeReports(db, kind, n + 1, amount, scopes, now, exclude);
    }
  }

  lemma {:induction false} ScopesReport(db: Db, k: nat, amount: int, scopes: Scopes, now: Time, exclude: Option<nat>)
    requires k <= 5
    requires forall j :: 0 <= j < |db.limits| && Rank(db.limits[j].scope) < k ==>
               !Violated(db, db.limits[j], amount, scopes, now, exclude)
    ensures var r := FirstViolation(db, k, amount, scopes, now, exclude);
            && (r.None? ==> forall j :: 0 <= j < |db.limits| ==> !Violated(db, db.limits[j], amount, scopes, now, exclude))
            && (r.Some? ==> exists i :: 0 <= i < |db.limits| && Reported(db, i, amount, scopes, now, exclude, r.value))
    decreases 5 - k
  {
    hide Violated, FirstInScope, Counted, Rank;
    RankBound();
    if k < 5 {
      var kind := SCOPE_ORDER[k];
      RankOf(k);
      ScopeReports(db, kind, 0, amount, scopes, now, exclude);
      var r := FirstInScope(db, kind, 0, amount, scopes, now, exclude);
      if r.Some? {
        var i :| 0 <= i < |db.limits| && db.limits[i].scope == kind && Violated(db, db.limits[i], amount, scopes, now, exclude)
                 && r.value == LimitExceeded(kind, db.limits[i].period, db.limits[i].amount, Counted(db, db.limits[i], now, exclude) + amount)
                 && forall j :: 0 <= j < i && db.limits[j].scope == kind ==> !Violated(db, db.limits[j], amount, scopes, now, exclude);
        assert Reported(db, i, amount, scopes, now, exclude, r.value);
      } else {
        hide Reported;
        ScopesReport(db, k + 1, amount, scopes, now, exclude);
      }
    }
  }

  lemma RankBound()
    ensures forall kind :: Rank(kind) < 5
    ensures forall a, b :: Rank(a) == Rank(b) ==> a == b
  {
  }

  lemma RankOf(k: nat)
    requires k < 5
    ensures Rank(SCOPE_ORDER[k]) == k && forall kind :: Rank(kind) == k ==> kind == SCOPE_ORDER[k]
  {
  }

  /** The check admits a charge if and only if no limit is violated, told by days and months; otherwise it reports the
      first violated limit: user before organization, project, runtime and key, and in table order within a scope. */
  lemma CheckByCalendar(db: Db, amount: int, scopes: Scopes, now: Time, exclude: Option<nat>)
    ensures var r := FirstViolation(db, 0, amount, scopes, now, exclude);
            && (r.None? <==> forall j :: 0 <= j < |db.limits| ==> !Violated(db, db.limits[j], amount, scopes, now, exclude))
            && (r.Some? ==> exists i :: 0 <= i < |db.limits| && Reported(db, i, amount, scopes, now, exclude, r.value))
  {
    hide FirstViolation, Counted;
    ScopesReport(db, 0, amount, scopes, now, exclude);
  }
}
