/** Concurrent reservations and settlements beyond the estimate.  `reserve` takes no lock before it reads, so its
    steps interleave: look the key up, lock and check the limit rows one by one, lock the wallet row, insert the
    reservation (the unique index makes a second insert of the key wait for the first and then fail), post the
    ledger row and commit, or roll back and look the key up again.  A settlement beyond the estimate locks the
    wallet row first and the limit rows after it.  Row locks are held to the commit or the rollback. */
module ReserveRace {
  import opened Common

  type Id = string

  datatype Kind = Reserves | Settles(estimate: int)

  /** A call: a reservation of an amount, or the settlement of one for an amount beyond its estimate.  `limits` are
      the limit rows of its scopes by their place in the lock order, which is the same for every call. */
  datatype Claim = Claim(key: string, user: Id, amount: int, limits: seq<nat>, kind: Kind)

  datatype Result = Won(hold: nat) | Found(hold: nat) | Settled | Refused

  /** Where a caller stands.  At AtLimits(n) and SettleLimits(_, n) it has the first n of its limit rows and wants
      the next; from AtInsert or SettleLimits to the commit it has its wallet's row lock and works on the balance
      it read under that lock. */
  datatype Pc =
    | AtLookup | AtLimits(taken: nat) | AtWallet
    | AtInsert(balance: int) | AtCommit(balance: int)
    | AtRecover
    | AtSettle | SettleLimits(balance: int, taken: nat) | SettleCommit(balance: int)
    | Ended(result: Result)

  datatype Wallet = Wallet(balance: int, reserved: int)

  datatype State = State(wallets: map<Id, Wallet>, holds: seq<Claim>, posted: seq<string>, pcs: seq<Pc>)

  /** One step of one caller (`pass` is the verdict of its limit check), or a committed change of a wallet
      by some other service, which waits for the row lock as well. */
  datatype Action = Step(caller: nat, pass: bool) | Elsewhere(user: Id, wallet: Wallet)

  // ---- locks ----------------------------------------------------------------

  predicate HasLock(pc: Pc) {
    pc.AtInsert? || pc.AtCommit? || pc.SettleLimits? || pc.SettleCommit?
  }

  /** How many of its limit rows a caller has. */
  function Taken(c: Claim, pc: Pc): (n: nat)
    ensures n <= |c.limits|
  {
    if pc.AtLimits? || pc.SettleLimits? then Min(pc.taken, |c.limits|)
    else if pc.AtWallet? || pc.AtInsert? || pc.AtCommit? || pc.SettleCommit? then |c.limits|
    else 0
  }

  predicate HasLimit(c: Claim, pc: Pc, limit: nat) {
    limit in c.limits[..Taken(c, pc)]
  }

  predicate WalletFree(claims: seq<Claim>, s: State, user: Id)
    requires |s.pcs| == |claims|
  {
    forall j :: 0 <= j < |claims| && HasLock(s.pcs[j]) ==> claims[j].user != user
  }

  predicate LimitFree(claims: seq<Claim>, s: State, limit: nat)
    requires |s.pcs| == |claims|
  {
    forall j :: 0 <= j < |claims| ==> !HasLimit(claims[j], s.pcs[j], limit)
  }

  /** The next limit row is to be had, or none is wanted any more. */
  predicate NextLimitFree(claims: seq<Claim>, s: State, c: Claim, taken: nat)
    requires |s.pcs| == |claims|
  {
    taken < |c.limits| ==> LimitFree(claims, s, c.limits[taken])
  }

  /** No other transaction has an uncommitted row under the key. */
  predicate KeyFree(claims: seq<Claim>, s: State, key: string)
    requires |s.pcs| == |claims|
  {
    forall j :: 0 <= j < |claims| && s.pcs[j].AtCommit? ==> claims[j].key != key
  }

  // ---- steps ----------------------------------------------------------------

  function Find(holds: seq<Claim>, key: string): (r: Option<nat>)
    ensures r.Some? ==> r.value < |holds| && holds[r.value].key == key
    ensures r.None? ==> forall i :: 0 <= i < |holds| ==> holds[i].key != key
  {
    if holds == [] then None
    else
      var n := |holds| - 1;
      var r := Find(holds[..n], key);
      if r.Some? then r else if holds[n].key == key then Some(n) else None
  }

  predicate Enabled(claims: seq<Claim>, s: State, a: Action)
    requires |s.pcs| == |claims|
  {
    match a
    case Elsewhere(user, _) => user in s.wallets && WalletFree(claims, s, user)
    case Step(i, _) =>
      i < |claims| && claims[i].user in s.wallets &&
      match s.pcs[i]
      case AtLimits(n) => NextLimitFree(claims, s, claims[i], n)
      case SettleLimits(_, n) => NextLimitFree(claims, s, claims[i], n)
      case AtWallet => WalletFree(claims, s, claims[i].user)
      case AtSettle => WalletFree(claims, s, claims[i].user)
      case AtInsert(_) => KeyFree(claims, s, claims[i].key)
      case Ended(_) => false
      case _ => true
  }

  function ToLimits(c: Claim, taken: nat): Pc {
    if taken < |c.limits| then AtLimits(taken) else AtWallet
  }

  function ToSettle(c: Claim, balance: int, taken: nat): Pc {
    if taken < |c.limits| then SettleLimits(balance, taken) else SettleCommit(balance)
  }

  function Estimate(c: Claim): int {
    if c.kind.Settles? then c.kind.estimate else 0
  }

  function Next(claims: seq<Claim>, s: State, a: Action): (s': State)
    requires |s.pcs| == |claims| && Enabled(claims, s, a)
    ensures |s'.pcs| == |claims|
  {
    match a
    case Elsewhere(user, wallet) => s.(wallets := s.wallets[user := wallet])
    case Step(i, pass) =>
      var c := claims[i];
      var found := Find(s.holds, c.key);
      match s.pcs[i]
      case AtLookup => s.(pcs := s.pcs[i := if found.Some? then Ended(Found(found.value)) else ToLimits(c, 0)])
      case AtLimits(n) => s.(pcs := s.pcs[i := if pass then ToLimits(c, n + 1) else Ended(Refused)])
      case AtWallet =>
        var balance := s.wallets[c.user].balance;
        s.(pcs := s.pcs[i := if balance < c.amount then Ended(Refused) else AtInsert(balance)])
      case AtInsert(balance) => s.(pcs := s.pcs[i := if found.Some? then AtRecover else AtCommit(balance)])
      case AtCommit(balance) =>
        if c.key + ":reservation" in s.posted then s.(pcs := s.pcs[i := AtRecover])
        else
          State(s.wallets[c.user := Wallet(balance - c.amount, s.wallets[c.user].reserved + c.amount)],
                s.holds + [c], s.posted + [c.key + ":reservation"], s.pcs[i := Ended(Won(|s.holds|))])
      case AtRecover => s.(pcs := s.pcs[i := if found.Some? then Ended(Found(found.value)) else Ended(Refused)])
      case AtSettle => s.(pcs := s.pcs[i := ToSettle(c, s.wallets[c.user].balance, 0)])
      case SettleLimits(balance, n) => s.(pcs := s.pcs[i := if pass then ToSettle(c, balance, n + 1) else Ended(Refused)])
      case SettleCommit(balance) =>
        if balance < c.amount then s.(pcs := s.pcs[i := Ended(Refused)])
        else s.(wallets := s.wallets[c.user := Wallet(balance - c.amount, s.wallets[c.user].reserved - Estimate(c))],
                pcs := s.pcs[i := Ended(Settled)])
  }

  // ---- schedules ------------------------------------------------------------

  ghost predicate Schedule(claims: seq<Claim>, s: State, actions: seq<Action>)
    requires |s.pcs| == |claims|
    decreases |actions|
  {
    actions == [] ||
    (Enabled(claims, s, actions[0]) && Schedule(claims, Next(claims, s, actions[0]), actions[1..]))
  }

  ghost function After(claims: seq<Claim>, s: State, actions: seq<Action>): (s': State)
    requires |s.pcs| == |claims| && Schedule(claims, s, actions)
    ensures |s'.pcs| == |claims|
    decreases |actions|
  {
    if actions == [] then s else After(claims, Next(claims, s, actions[0]), actions[1..])
  }

  function Begin(c: Claim): Pc {
    if c.kind.Reserves? then AtLookup else AtSettle
  }

  function Start(claims: seq<Claim>, wallets: map<Id, Wallet>, posted: seq<string>): State {
    State(wallets, [], posted, seq(|claims|, i requires 0 <= i < |claims| => Begin(claims[i])))
  }

  // ---- the invariant --------------------------------------------------------

  /** Each call is where its kind can be, and one that wants a limit row has a next one. */
  ghost predicate PlacesSound(claims: seq<Claim>, s: State)
    requires |s.pcs| == |claims|
  {
    forall i :: 0 <= i < |claims| ==>
      match s.pcs[i]
      case AtLimits(n) => claims[i].kind.Reserves? && n < |claims[i].limits|
      case SettleLimits(_, n) => claims[i].kind.Settles? && n < |claims[i].limits|
      case AtSettle => claims[i].kind.Settles?
      case SettleCommit(_) => claims[i].kind.Settles?
      case Ended(_) => true
      case _ => claims[i].kind.Reserves?
  }

  ghost predicate OneHolder(claims: seq<Claim>, s: State)
    requires |s.pcs| == |claims|
  {
    forall i, j :: 0 <= i < j < |claims| && HasLock(s.pcs[i]) && HasLock(s.pcs[j]) ==> claims[i].user != claims[j].user
  }

  ghost predicate HolderSound(claims: seq<Claim>, s: State, i: nat)
    requires |s.pcs| == |claims| && i < |claims|
  {
    HasLock(s.pcs[i]) ==>
      && claims[i].user in s.wallets && s.pcs[i].balance == s.wallets[claims[i].user].balance
      && (s.pcs[i].AtInsert? || s.pcs[i].AtCommit? ==> s.pcs[i].balance >= claims[i].amount)
  }

  /** A wallet's row lock has one holder, whose balance is the committed one; a reservation's covers its claim. */
  ghost predicate LocksSound(claims: seq<Claim>, s: State)
    requires |s.pcs| == |claims|
  {
    OneHolder(claims, s) && forall i :: 0 <= i < |claims| ==> HolderSound(claims, s, i)
  }

  /** A key has one uncommitted row at most, and none once a row is committed. */
  ghost predicate KeysSound(claims: seq<Claim>, s: State)
    requires |s.pcs| == |claims|
  {
    && (forall i, j :: 0 <= i < j < |s.holds| ==> s.holds[i].key != s.holds[j].key)
    && (forall i, j :: 0 <= i < j < |claims| && s.pcs[i].AtCommit? && s.pcs[j].AtCommit? ==> claims[i].key != claims[j].key)
    && (forall i, h :: 0 <= i < |claims| && s.pcs[i].AtCommit? && 0 <= h < |s.holds| ==> s.holds[h].key != claims[i].key)
    && (forall h :: 0 <= h < |s.holds| ==> s.holds[h].key + ":reservation" in s.posted)
  }

  predicate GotHold(pc: Pc) {
    pc.Ended? && (pc.result.Won? || pc.result.Found?)
  }

  ghost predicate ResultSound(claims: seq<Claim>, s: State, i: nat)
    requires |s.pcs| == |claims| && i < |claims|
  {
    match s.pcs[i]
    case Ended(Won(h)) => h < |s.holds| && s.holds[h] == claims[i]
    case Ended(Found(h)) => h < |s.holds| && s.holds[h].key == claims[i].key
    case _ => true
  }

  ghost predicate IsWon(claims: seq<Claim>, s: State, h: nat)
    requires |s.pcs| == |claims|
  {
    exists i :: 0 <= i < |claims| && s.pcs[i] == Ended(Won(h))
  }

  /** Winners own distinct holds, every hold has a winner, and whoever found a hold asked for its key. */
  ghost predicate ResultsSound(claims: seq<Claim>, s: State)
    requires |s.pcs| == |claims|
  {
    && (forall i :: 0 <= i < |claims| ==> ResultSound(claims, s, i))
    && (forall i, j | 0 <= i < j < |claims| && s.pcs[i].Ended? && s.pcs[j].Ended? && s.pcs[i].result.Won? && s.pcs[j].result.Won? ::
          s.pcs[i].result != s.pcs[j].result)
    && (forall h :: 0 <= h < |s.holds| ==> IsWon(claims, s, h))
  }

  ghost predicate Sound(claims: seq<Claim>, s: State) {
    |s.pcs| == |claims| && PlacesSound(claims, s) && LocksSound(claims, s) && KeysSound(claims, s) && ResultsSound(claims, s)
  }

  /** The step in which a caller commits its reservation. */
  predicate Commits(claims: seq<Claim>, s: State, a: Action)
    requires |s.pcs| == |claims|
  {
    a.Step? && a.caller < |claims| && s.pcs[a.caller].AtCommit? && claims[a.caller].key + ":reservation" !in s.posted
  }

  /** The step in which a caller commits its settlement. */
  predicate CommitsSettlement(claims: seq<Claim>, s: State, a: Action)
    requires |s.pcs| == |claims|
  {
    a.Step? && a.caller < |claims| && s.pcs[a.caller].SettleCommit? && s.pcs[a.caller].balance >= claims[a.caller].amount
  }

  lemma NextKeepsPlaces(claims: seq<Claim>, s: State, a: Action)
    requires Sound(claims, s) && Enabled(claims, s, a)
    ensures PlacesSound(claims, Next(claims, s, a))
  {
    hide LocksSound, KeysSound, ResultsSound, NextLimitFree, WalletFree, KeyFree, Find;
  }

  lemma NextKeepsLocks(claims: seq<Claim>, s: State, a: Action)
    requires Sound(claims, s) && Enabled(claims, s, a)
    ensures LocksSound(claims, Next(claims, s, a))
  {
    hide KeysSound, ResultsSound, NextLimitFree, KeyFree, Find, PlacesSound;
    NextKeepsHolder(claims, s, a);
    forall i | 0 <= i < |claims|
      ensures HolderSound(claims, Next(claims, s, a), i)
    {
      HolderStaysSound(claims, s, a, i);
    }
  }

  lemma NextKeepsHolder(claims: seq<Claim>, s: State, a: Action)
    requires |s.pcs| == |claims| && OneHolder(claims, s) && Enabled(claims, s, a)
    ensures OneHolder(claims, Next(claims, s, a))
  {
    hide NextLimitFree, KeyFree, Find;
  }

  lemma HolderStaysSound(claims: seq<Claim>, s: State, a: Action, i: nat)
    requires |s.pcs| == |claims| && LocksSound(claims, s) && Enabled(claims, s, a) && i < |claims|
    ensures HolderSound(claims, Next(claims, s, a), i)
  {
    hide NextLimitFree, KeyFree, Find;
    assert HolderSound(claims, s, i);
  }

  lemma NextKeepsKeys(claims: seq<Claim>, s: State, a: Action)
    requires Sound(claims, s) && Enabled(claims, s, a)
    ensures KeysSound(claims, Next(claims, s, a))
  {
    hide LocksSound, ResultsSound, NextLimitFree, WalletFree, PlacesSound;
  }

  lemma NextKeepsResult(claims: seq<Claim>, s: State, a: Action, i: nat)
    requires |s.pcs| == |claims| && Enabled(claims, s, a) && i < |claims| && ResultSound(claims, s, i)
    ensures ResultSound(claims, Next(claims, s, a), i)
  {
    hide NextLimitFree, WalletFree, KeyFree;
  }

  lemma NextKeepsWon(claims: seq<Claim>, s: State, a: Action, h: nat)
    requires |s.pcs| == |claims| && Enabled(claims, s, a) && h < |Next(claims, s, a).holds|
    requires h < |s.holds| ==> IsWon(claims, s, h)
    ensures IsWon(claims, Next(claims, s, a), h)
  {
    hide NextLimitFree, WalletFree, KeyFree, Find;
    var s' := Next(claims, s, a);
    if h < |s.holds| {
      var i :| 0 <= i < |claims| && s.pcs[i] == Ended(Won(h));
      assert s'.pcs[i] == Ended(Won(h));
    } else {
      assert s'.pcs[a.caller] == Ended(Won(h));
    }
  }

  lemma NextKeepsResults(claims: seq<Claim>, s: State, a: Action)
    requires Sound(claims, s) && Enabled(claims, s, a)
    ensures ResultsSound(claims, Next(claims, s, a))
  {
    hide LocksSound, KeysSound, NextLimitFree, WalletFree, KeyFree, PlacesSound, IsWon, Find;
    var s' := Next(claims, s, a);
    forall i | 0 <= i < |claims|
      ensures ResultSound(claims, s', i)
    {
      assert ResultSound(claims, s, i);
      NextKeepsResult(claims, s, a, i);
    }
    forall h | 0 <= h < |s'.holds|
      ensures IsWon(claims, s', h)
    {
      assert h < |s.holds| ==> IsWon(claims, s, h);
      NextKeepsWon(claims, s, a, h);
    }
    forall i, j | 0 <= i < j < |claims| && s'.pcs[i].Ended? && s'.pcs[j].Ended? && s'.pcs[i].result.Won? && s'.pcs[j].result.Won?
      ensures s'.pcs[i].result != s'.pcs[j].result
    {
      assert ResultSound(claims, s, i) && ResultSound(claims, s, j);
    }
  }

  lemma NextKeepsSound(claims: seq<Claim>, s: State, a: Action)
    requires Sound(claims, s) && Enabled(claims, s, a)
    ensures Sound(claims, Next(claims, s, a))
  {
    NextKeepsPlaces(claims, s, a);
    NextKeepsLocks(claims, s, a);
    NextKeepsKeys(claims, s, a);
    NextKeepsResults(claims, s, a);
    hide PlacesSound, LocksSound, KeysSound, ResultsSound, Next, Enabled;
  }

  lemma StartIsSound(claims: seq<Claim>, wallets: map<Id, Wallet>, posted: seq<string>)
    ensures Sound(claims, Start(claims, wallets, posted))
  {
  }

  /** Only a commit touches wallets, holds or ledger.  A reservation's moves exactly the claimed amount, a
      settlement's takes exactly the additional amount: a caller that loses the race, is refused or finds the key
      taken leaves the tables as they were. */
  lemma OnlyCommitsMove(claims: seq<Claim>, s: State, a: Action)
    requires Sound(claims, s) && Enabled(claims, s, a) && a.Step?
    ensures var s' := Next(claims, s, a);
            var c := claims[a.caller];
            if Commits(claims, s, a) then
              && s'.holds == s.holds + [c] && s'.posted == s.posted + [c.key + ":reservation"]
              && s'.wallets == s.wallets[c.user := Wallet(s.wallets[c.user].balance - c.amount, s.wallets[c.user].reserved + c.amount)]
              && s'.wallets[c.user].balance >= 0
              && Find(s.holds, c.key).None?
            else if CommitsSettlement(claims, s, a) then
              && s'.holds == s.holds && s'.posted == s.posted
              && s'.wallets == s.wallets[c.user := Wallet(s.wallets[c.user].balance - c.amount, s.wallets[c.user].reserved - Estimate(c))]
              && s'.wallets[c.user].balance >= 0
            else s'.wallets == s.wallets && s'.holds == s.holds && s'.posted == s.posted
  {
    hide ResultsSound, NextLimitFree, WalletFree, KeyFree, PlacesSound;
    assert HolderSound(claims, s, a.caller);
  }

  /** Every interleaving keeps the invariant. */
  lemma {:induction false} SchedulesAreSound(claims: seq<Claim>, s: State, actions: seq<Action>)
    requires Sound(claims, s) && Schedule(claims, s, actions)
    ensures Sound(claims, After(claims, s, actions))
    decreases |actions|
  {
    hide PlacesSound, LocksSound, KeysSound, ResultsSound, Next, Enabled;
    if actions != [] {
      NextKeepsSound(claims, s, actions[0]);
      SchedulesAreSound(claims, Next(claims, s, actions[0]), actions[1..]);
    }
  }

  // ---- what callers are promised --------------------------------------------

  function HeldBy(user: Id): Claim -> int {
    (c: Claim) => if c.user == user then c.amount else 0
  }

  /** The change of a user's balance in one step that is no reservation. */
  ghost function Moved(claims: seq<Claim>, s: State, a: Action, user: Id): int
    requires |s.pcs| == |claims| && Enabled(claims, s, a)
  {
    match a
    case Elsewhere(u, w) => if u == user then w.balance - s.wallets[u].balance else 0
    case Step(i, _) => if CommitsSettlement(claims, s, a) && claims[i].user == user then -claims[i].amount else 0
  }

  /** The change of a user's balance made by the settlements and the other services during a schedule. */
  ghost function MovedElsewhere(claims: seq<Claim>, s: State, actions: seq<Action>, user: Id): int
    requires |s.pcs| == |claims| && Schedule(claims, s, actions)
    decreases |actions|
  {
    if actions == [] then 0
    else Moved(claims, s, actions[0], user) + MovedElsewhere(claims, Next(claims, s, actions[0]), actions[1..], user)
  }

  lemma StepAccounted(claims: seq<Claim>, s: State, a: Action, user: Id)
    requires Sound(claims, s) && Enabled(claims, s, a) && user in s.wallets
    ensures var s' := Next(claims, s, a);
            && user in s'.wallets
            && s'.wallets[user].balance + Sum(s'.holds, HeldBy(user))
               == s.wallets[user].balance + Sum(s.holds, HeldBy(user)) + Moved(claims, s, a, user)
  {
    if a.Step? {
      OnlyCommitsMove(claims, s, a);
      SumSnoc(s.holds, claims[a.caller], HeldBy(user));
      hide Next, Enabled, Sound, Sum;
    }
  }

  lemma {:induction false} BalanceAccounted(claims: seq<Claim>, s: State, actions: seq<Action>, user: Id)
    requires Sound(claims, s) && Schedule(claims, s, actions) && user in s.wallets
    ensures var s' := After(claims, s, actions);
            && user in s'.wallets
            && s'.wallets[user].balance + Sum(s'.holds, HeldBy(user))
               == s.wallets[user].balance + Sum(s.holds, HeldBy(user)) + MovedElsewhere(claims, s, actions, user)
    decreases |actions|
  {
    assert |s.pcs| == |claims|;
    hide Sound, Next, Enabled, Sum, Moved;
    if actions != [] {
      NextKeepsSound(claims, s, actions[0]);
      StepAccounted(claims, s, actions[0], user);
      BalanceAccounted(claims, Next(claims, s, actions[0]), actions[1..], user);
    }
  }

  /** However calls interleave: a key has at most one reservation, every wallet lost exactly the amounts of
      the reservations made on it besides what settlements and other services moved, at most one caller of a key
      wins, and all callers of a key that get a reservation get the same one. */
  lemma ReserveIsIdempotent(claims: seq<Claim>, wallets: map<Id, Wallet>, posted: seq<string>, actions: seq<Action>)
    requires Schedule(claims, Start(claims, wallets, posted), actions)
    ensures var s := After(claims, Start(claims, wallets, posted), actions);
            && (forall i, j :: 0 <= i < j < |s.holds| ==> s.holds[i].key != s.holds[j].key)
            && (forall u :: u in wallets ==>
                  u in s.wallets
                  && s.wallets[u].balance == wallets[u].balance - Sum(s.holds, HeldBy(u))
                                             + MovedElsewhere(claims, Start(claims, wallets, posted), actions, u))
            && (forall i, j :: 0 <= i < j < |claims| && claims[i].key == claims[j].key ==>
                  !(s.pcs[i].Ended? && s.pcs[i].result.Won? && s.pcs[j].Ended? && s.pcs[j].result.Won?))
            && (forall i, j | 0 <= i < |claims| && 0 <= j < |claims| && claims[i].key == claims[j].key
                              && GotHold(s.pcs[i]) && GotHold(s.pcs[j]) ::
                  s.pcs[i].result.hold == s.pcs[j].result.hold)
  {
    var init := Start(claims, wallets, posted);
    var s := After(claims, init, actions);
    StartIsSound(claims, wallets, posted);
    SchedulesAreSound(claims, init, actions);
    forall u | u in wallets
      ensures u in s.wallets
      ensures s.wallets[u].balance == wallets[u].balance - Sum(s.holds, HeldBy(u)) + MovedElsewhere(claims, init, actions, u)
    {
      BalanceAccounted(claims, init, actions, u);
    }
    hide After, Schedule, MovedElsewhere, PlacesSound, LocksSound, Sum, ResultsSound;
    forall i, j | 0 <= i < |claims| && 0 <= j < |claims| && claims[i].key == claims[j].key
                  && GotHold(s.pcs[i]) && GotHold(s.pcs[j])
      ensures s.pcs[i].result.hold == s.pcs[j].result.hold
      ensures i != j ==> !(s.pcs[i].result.Won? && s.pcs[j].result.Won?)
    {
      ResultsAgree(claims, s, i, j);
    }
  }

  lemma ResultsAgree(claims: seq<Claim>, s: State, i: nat, j: nat)
    requires |s.pcs| == |claims| && KeysSound(claims, s) && ResultsSound(claims, s)
    requires i < |claims| && j < |claims| && claims[i].key == claims[j].key && GotHold(s.pcs[i]) && GotHold(s.pcs[j])
    ensures s.pcs[i].result.hold == s.pcs[j].result.hold
    ensures i != j ==> !(s.pcs[i].result.Won? && s.pcs[j].result.Won?)
  {
    hide IsWon;
    assert ResultSound(claims, s, i) && ResultSound(claims, s, j);
    var a, b := s.pcs[i].result.hold, s.pcs[j].result.hold;
    assert s.holds[a].key == s.holds[b].key;
  }

  // ---- who can move ---------------------------------------------------------

  ghost predicate Ascending(limits: seq<nat>) {
    forall i, j :: 0 <= i < j < |limits| ==> limits[i] < limits[j]
  }

  /** Every call locks its limit rows in the common order, and has a wallet. */
  ghost predicate WellOrdered(claims: seq<Claim>, s: State) {
    forall i :: 0 <= i < |claims| ==> Ascending(claims[i].limits) && claims[i].user in s.wallets
  }

  ghost predicate CanMove(claims: seq<Claim>, s: State)
    requires |s.pcs| == |claims|
  {
    exists i: nat :: Enabled(claims, s, Step(i, true))
  }

  ghost predicate Unfinished(claims: seq<Claim>, s: State)
    requires |s.pcs| == |claims|
  {
    exists i :: 0 <= i < |claims| && !s.pcs[i].Ended?
  }

  predicate WantsLimit(pc: Pc) {
    pc.AtLimits? || pc.SettleLimits?
  }

  /** Call i wants a limit row, and call j has it. */
  ghost predicate WaitsForLimit(claims: seq<Claim>, s: State, i: nat, j: nat)
    requires |s.pcs| == |claims| && i < |claims| && j < |claims|
  {
    WantsLimit(s.pcs[i]) && s.pcs[i].taken < |claims[i].limits|
    && HasLimit(claims[j], s.pcs[j], claims[i].limits[s.pcs[i].taken])
  }

  /** Reservation i has all its limit rows and wants the wallet that settlement j has while it collects its own. */
  ghost predicate WaitsForSettlement(claims: seq<Claim>, s: State, i: nat, j: nat)
    requires |s.pcs| == |claims| && i < |claims| && j < |claims|
  {
    s.pcs[i].AtWallet? && s.pcs[j].SettleLimits? && claims[i].user == claims[j].user
  }

  /** The place after the limit row that a caller wants, if it wants one. */
  function Wanted(c: Claim, pc: Pc): nat {
    if WantsLimit(pc) && pc.taken < |c.limits| then c.limits[pc.taken] + 1 else 0
  }

  lemma {:induction false} Highest(f: nat -> int, n: nat) returns (top: nat)
    requires n > 0
    ensures top < n && forall j: nat :: j < n ==> f(j) <= f(top)
  {
    if n == 1 {
      top := 0;
    } else {
      top := Highest(f, n - 1);
      if f(n - 1) > f(top) {
        top := n - 1;
      }
    }
  }

  /** Who wants a limit row has only earlier ones. */
  lemma HasEarlier(c: Claim, pc: Pc, limit: nat)
    requires Ascending(c.limits) && WantsLimit(pc) && pc.taken < |c.limits| && HasLimit(c, pc, limit)
    ensures limit + 1 < Wanted(c, pc)
  {
  }

  /** When nobody can move, everybody has ended or waits for a limit row or for a wallet. */
  lemma OnlyWaiters(claims: seq<Claim>, s: State, i: nat)
    requires |s.pcs| == |claims| && PlacesSound(claims, s) && WellOrdered(claims, s) && !CanMove(claims, s) && i < |claims|
    ensures s.pcs[i].Ended? || WantsLimit(s.pcs[i]) || s.pcs[i].AtWallet? || s.pcs[i].AtSettle?
    ensures s.pcs[i].AtWallet? || s.pcs[i].AtSettle? ==> !WalletFree(claims, s, claims[i].user)
    ensures WantsLimit(s.pcs[i]) ==>
              s.pcs[i].taken < |claims[i].limits| && !LimitFree(claims, s, claims[i].limits[s.pcs[i].taken])
  {
    hide WalletFree, LimitFree;
    forall j | 0 <= j < |claims|
      ensures !s.pcs[j].AtCommit?
    {
      assert !Enabled(claims, s, Step(j, true));
    }
    assert !Enabled(claims, s, Step(i, true));
  }

  /** The wallet it waits for is a settlement's that still collects limit rows. */
  lemma WalletHolder(claims: seq<Claim>, s: State, i: nat) returns (w: nat)
    requires |s.pcs| == |claims| && PlacesSound(claims, s) && WellOrdered(claims, s) && !CanMove(claims, s) && i < |claims|
    requires s.pcs[i].AtWallet? || s.pcs[i].AtSettle?
    ensures w < |claims| && s.pcs[w].SettleLimits? && claims[w].user == claims[i].user
  {
    OnlyWaiters(claims, s, i);
    w :| w < |claims| && HasLock(s.pcs[w]) && claims[w].user == claims[i].user;
    OnlyWaiters(claims, s, w);
  }

  /** Somebody wants a limit row. */
  lemma SomeoneWants(claims: seq<Claim>, s: State) returns (i: nat)
    requires |s.pcs| == |claims| && PlacesSound(claims, s) && WellOrdered(claims, s) && !CanMove(claims, s)
    requires Unfinished(claims, s)
    ensures i < |claims| && Wanted(claims[i], s.pcs[i]) > 0
  {
    hide PlacesSound, WellOrdered, CanMove;
    i :| i < |claims| && !s.pcs[i].Ended?;
    OnlyWaiters(claims, s, i);
    if !WantsLimit(s.pcs[i]) {
      i := WalletHolder(claims, s, i);
      OnlyWaiters(claims, s, i);
    }
  }

  /** When nobody can move: some reservation waits for the wallet of a settlement that still collects limit rows,
      and somebody waits for a limit row of that reservation. */
  lemma StuckShape(claims: seq<Claim>, s: State) returns (t: nat, r: nat, w: nat)
    requires |s.pcs| == |claims| && PlacesSound(claims, s) && WellOrdered(claims, s) && !CanMove(claims, s)
    requires Unfinished(claims, s)
    ensures t < |claims| && r < |claims| && w < |claims|
    ensures WaitsForLimit(claims, s, t, r) && WaitsForSettlement(claims, s, r, w)
  {
    var some := SomeoneWants(claims, s);
    var f := (i: nat) => if i < |claims| && i < |s.pcs| then Wanted(claims[i], s.pcs[i]) else 0;
    t := Highest(f, |claims|);
    assert f(some) <= f(t);
    OnlyWaiters(claims, s, t);
    hide PlacesSound, CanMove, HasLimit, Unfinished;
    var wanted := claims[t].limits[s.pcs[t].taken];
    r :| r < |claims| && HasLimit(claims[r], s.pcs[r], wanted);
    assert f(r) <= f(t);
    OnlyWaiters(claims, s, r);
    if WantsLimit(s.pcs[r]) {
      HasEarlier(claims[r], s.pcs[r], wanted);
      assert false;
    }
    HasSome(claims[r], s.pcs[r], wanted);
    w := WalletHolder(claims, s, r);
  }

  lemma HasSome(c: Claim, pc: Pc, limit: nat)
    requires HasLimit(c, pc, limit)
    ensures !pc.Ended? && !pc.AtSettle?
  {
  }

  /** So somebody can move unless a reservation with all its limit rows waits for the wallet that a settlement has
      while it collects its own. */
  lemma SomeoneCanMove(claims: seq<Claim>, s: State)
    requires Sound(claims, s) && WellOrdered(claims, s) && Unfinished(claims, s)
    requires forall r: nat, w: nat :: r < |claims| && w < |claims| ==> !WaitsForSettlement(claims, s, r, w)
    ensures CanMove(claims, s)
  {
    if !CanMove(claims, s) {
      hide WaitsForSettlement, WaitsForLimit, CanMove, Unfinished, WellOrdered, PlacesSound, LocksSound, KeysSound, ResultsSound;
      var t, r, w := StuckShape(claims, s);
      assert false;
    }
  }

  /** Reservations alone never block one another for good. */
  lemma ReservationsCanMove(claims: seq<Claim>, s: State)
    requires Sound(claims, s) && WellOrdered(claims, s) && Unfinished(claims, s)
    requires forall i :: 0 <= i < |claims| ==> claims[i].kind.Reserves?
    ensures CanMove(claims, s)
  {
    hide CanMove, Unfinished, WellOrdered, LocksSound, KeysSound, ResultsSound;
    SomeoneCanMove(claims, s);
  }

  // ---- runs step by step ----------------------------------------------------

  ghost predicate Reaches(claims: seq<Claim>, init: State, s: State) {
    |init.pcs| == |claims| && exists actions :: Schedule(claims, init, actions) && After(claims, init, actions) == s
  }

  lemma {:induction false} ScheduleNext(claims: seq<Claim>, init: State, actions: seq<Action>, a: Action)
    requires |init.pcs| == |claims| && Schedule(claims, init, actions) && Enabled(claims, After(claims, init, actions), a)
    ensures Schedule(claims, init, actions + [a])
    ensures After(claims, init, actions + [a]) == Next(claims, After(claims, init, actions), a)
    decreases |actions|
  {
    hide Enabled, Next;
    if actions == [] {
      assert [] + [a] == [a];
      assert [a][1..] == [];
    } else {
      ScheduleNext(claims, Next(claims, init, actions[0]), actions[1..], a);
      assert (actions + [a])[1..] == actions[1..] + [a];
    }
  }

  lemma ReachesNext(claims: seq<Claim>, init: State, s: State, a: Action)
    requires Reaches(claims, init, s) && |s.pcs| == |claims| && Enabled(claims, s, a)
    ensures Reaches(claims, init, Next(claims, s, a))
  {
    hide Schedule, After, Enabled, Next;
    var actions :| Schedule(claims, init, actions) && After(claims, init, actions) == s;
    ScheduleNext(claims, init, actions, a);
    assert Schedule(claims, init, actions + [a]);
  }

  lemma ReachesStart(claims: seq<Claim>, init: State)
    requires |init.pcs| == |claims|
    ensures Reaches(claims, init, init)
  {
    assert Schedule(claims, init, []) && After(claims, init, []) == init;
  }

  // ---- a reservation against a settlement -----------------------------------

  function Pair(wallets: map<Id, Wallet>, posted: seq<string>, reserve: Pc, settle: Pc): State {
    State(wallets, [], posted, [reserve, settle])
  }

  /** What the lemmas on one reservation and one settlement are about. */
  ghost predicate OneEach(r: Claim, w: Claim, wallets: map<Id, Wallet>) {
    && r.kind.Reserves? && w.kind.Settles? && Ascending(r.limits) && Ascending(w.limits)
    && r.user in wallets && w.user in wallets
  }

  lemma NotYetTaken(limits: seq<nat>, n: nat)
    requires Ascending(limits) && n < |limits|
    ensures limits[n] !in limits[..n]
  {
  }

  /** The reservation takes its limit rows while the settlement has not begun. */
  lemma {:induction false} ReserveTakes(r: Claim, w: Claim, wallets: map<Id, Wallet>, posted: seq<string>, n: nat)
    requires OneEach(r, w, wallets) && n <= |r.limits|
    ensures Reaches([r, w], Start([r, w], wallets, posted), Pair(wallets, posted, ToLimits(r, n), AtSettle))
  {
    hide Reaches;
    var claims := [r, w];
    var init := Start(claims, wallets, posted);
    if n == 0 {
      ReachesStart(claims, init);
      assert init == Pair(wallets, posted, AtLookup, AtSettle);
      ReachesNext(claims, init, init, Step(0, true));
      assert Next(claims, init, Step(0, true)) == Pair(wallets, posted, ToLimits(r, 0), AtSettle);
    } else {
      ReserveTakes(r, w, wallets, posted, n - 1);
      var s := Pair(wallets, posted, AtLimits(n - 1), AtSettle);
      NotYetTaken(r.limits, n - 1);
      assert LimitFree(claims, s, r.limits[n - 1]);
      ReachesNext(claims, init, s, Step(0, true));
      assert Next(claims, s, Step(0, true)) == Pair(wallets, posted, ToLimits(r, n), AtSettle);
    }
  }

  /** Then the settlement takes its wallet and its limit rows up to the first that the reservation has. */
  lemma {:induction false} SettleTakes(r: Claim, w: Claim, wallets: map<Id, Wallet>, posted: seq<string>, m: nat)
    requires OneEach(r, w, wallets) && m < |w.limits|
    requires forall k :: 0 <= k < m ==> w.limits[k] !in r.limits
    ensures Reaches([r, w], Start([r, w], wallets, posted),
                    Pair(wallets, posted, AtWallet, SettleLimits(wallets[w.user].balance, m)))
  {
    hide Reaches;
    var claims := [r, w];
    var init := Start(claims, wallets, posted);
    var balance := wallets[w.user].balance;
    if m == 0 {
      ReserveTakes(r, w, wallets, posted, |r.limits|);
      var s := Pair(wallets, posted, AtWallet, AtSettle);
      assert WalletFree(claims, s, w.user);
      ReachesNext(claims, init, s, Step(1, true));
      assert Next(claims, s, Step(1, true)) == Pair(wallets, posted, AtWallet, SettleLimits(balance, 0));
    } else {
      SettleTakes(r, w, wallets, posted, m - 1);
      var s := Pair(wallets, posted, AtWallet, SettleLimits(balance, m - 1));
      NotYetTaken(w.limits, m - 1);
      assert r.limits[..|r.limits|] == r.limits;
      assert LimitFree(claims, s, w.limits[m - 1]);
      ReachesNext(claims, init, s, Step(1, true));
      assert Next(claims, s, Step(1, true)) == Pair(wallets, posted, AtWallet, SettleLimits(balance, m));
    }
  }

  lemma BothWait(r: Claim, w: Claim, wallets: map<Id, Wallet>, posted: seq<string>, balance: int, m: nat)
    requires OneEach(r, w, wallets) && r.user == w.user && m < |w.limits| && w.limits[m] in r.limits
    ensures var s := Pair(wallets, posted, AtWallet, SettleLimits(balance, m));
            !CanMove([r, w], s) && Unfinished([r, w], s)
  {
    var claims := [r, w];
    var s := Pair(wallets, posted, AtWallet, SettleLimits(balance, m));
    assert HasLock(s.pcs[1]) && claims[1].user == r.user;
    assert !WalletFree(claims, s, r.user);
    assert r.limits[..|r.limits|] == r.limits;
    assert HasLimit(claims[0], s.pcs[0], w.limits[m]);
    assert !LimitFree(claims, s, w.limits[m]);
    assert !s.pcs[0].Ended?;
  }

  lemma {:induction false} FirstShared(a: seq<nat>, b: seq<nat>, n: nat) returns (m: nat)
    requires n <= |a| && exists k :: 0 <= k < n && a[k] in b
    ensures m < n && a[m] in b && forall k :: 0 <= k < m ==> a[k] !in b
  {
    if exists k :: 0 <= k < n - 1 && a[k] in b {
      m := FirstShared(a, b, n - 1);
    } else {
      m := n - 1;
    }
  }

  lemma WalletsStay(claims: seq<Claim>, wallets: map<Id, Wallet>, posted: seq<string>, s: State)
    requires Reaches(claims, Start(claims, wallets, posted), s)
    ensures Sound(claims, s) && forall u :: u in wallets ==> u in s.wallets
  {
    var init := Start(claims, wallets, posted);
    hide Schedule, After, Sound, Sum, MovedElsewhere;
    var actions :| Schedule(claims, init, actions) && After(claims, init, actions) == s;
    StartIsSound(claims, wallets, posted);
    SchedulesAreSound(claims, init, actions);
    forall u | u in wallets
      ensures u in s.wallets
    {
      BalanceAccounted(claims, init, actions, u);
    }
  }

  /** A reservation and a settlement beyond its estimate can block each other for good if and only if they are on
      one wallet and share a limit row: the one locks limit rows before the wallet, the other after it. */
  lemma PairDeadlocksIff(r: Claim, w: Claim, wallets: map<Id, Wallet>, posted: seq<string>)
    requires OneEach(r, w, wallets)
    ensures (exists s: State :: |s.pcs| == 2 && Reaches([r, w], Start([r, w], wallets, posted), s)
                         && Unfinished([r, w], s) && !CanMove([r, w], s))
       <==> r.user == w.user && exists k :: 0 <= k < |w.limits| && w.limits[k] in r.limits
  {
    hide Reaches, CanMove, Unfinished;
    var claims := [r, w];
    var init := Start(claims, wallets, posted);
    if r.user == w.user && exists k :: 0 <= k < |w.limits| && w.limits[k] in r.limits {
      var m := FirstShared(w.limits, r.limits, |w.limits|);
      SettleTakes(r, w, wallets, posted, m);
      BothWait(r, w, wallets, posted, wallets[w.user].balance, m);
    }
    forall s: State | |s.pcs| == 2 && Reaches(claims, init, s) && Unfinished(claims, s) && !CanMove(claims, s)
      ensures r.user == w.user && exists k :: 0 <= k < |w.limits| && w.limits[k] in r.limits
    {
      WalletsStay(claims, wallets, posted, s);
      PairShape(r, w, wallets, s);
    }
  }

  lemma PairShape(r: Claim, w: Claim, wallets: map<Id, Wallet>, s: State)
    requires OneEach(r, w, wallets) && Sound([r, w], s) && forall u :: u in wallets ==> u in s.wallets
    requires Unfinished([r, w], s) && !CanMove([r, w], s)
    ensures r.user == w.user && exists k :: 0 <= k < |w.limits| && w.limits[k] in r.limits
  {
    hide CanMove, Unfinished, LocksSound, KeysSound, ResultsSound;
    var claims := [r, w];
    var t, i, j := StuckShape(claims, s);
    assert claims[i].kind.Reserves? && claims[j].kind.Settles?;
    assert i == 0 && j == 1 && t == 1;
    assert w.limits[s.pcs[1].taken] in r.limits;
  }

  // ---- whose reservation ----------------------------------------------------

  ghost predicate OriginSound(claims: seq<Claim>, s: State, i: nat)
    requires |s.pcs| == |claims| && i < |claims|
  {
    && (claims[i].user !in s.wallets ==> s.pcs[i] == Begin(claims[i]))
    && (GotHold(s.pcs[i]) ==> claims[i].kind.Reserves?)
  }

  /** What a state keeps of the start: the wallets are the same, posted rows stay, no reservation is committed whose
      row was there before, and only reservations of users with a wallet get a reservation. */
  ghost predicate OriginsSound(claims: seq<Claim>, wallets: map<Id, Wallet>, posted: seq<string>, s: State)
    requires |s.pcs| == |claims|
  {
    && s.wallets.Keys == wallets.Keys
    && (forall row :: row in posted ==> row in s.posted)
    && (forall h :: 0 <= h < |s.holds| ==> s.holds[h].key + ":reservation" !in posted)
    && (forall i :: 0 <= i < |claims| ==> OriginSound(claims, s, i))
  }

  lemma NextKeepsOrigin(claims: seq<Claim>, s: State, a: Action, i: nat)
    requires Sound(claims, s) && Enabled(claims, s, a) && i < |claims| && OriginSound(claims, s, i)
    ensures OriginSound(claims, Next(claims, s, a), i)
  {
    hide LocksSound, KeysSound, ResultsSound, NextLimitFree, WalletFree, KeyFree, Find;
  }

  lemma NextKeepsOrigins(claims: seq<Claim>, wallets: map<Id, Wallet>, posted: seq<string>, s: State, a: Action)
    requires Sound(claims, s) && Enabled(claims, s, a) && OriginsSound(claims, wallets, posted, s)
    ensures OriginsSound(claims, wallets, posted, Next(claims, s, a))
  {
    hide NextLimitFree, WalletFree, KeyFree, Find, OriginSound;
    forall i | 0 <= i < |claims|
      ensures OriginSound(claims, Next(claims, s, a), i)
    {
      assert OriginSound(claims, s, i);
      NextKeepsOrigin(claims, s, a, i);
    }
    hide Sound;
  }

  lemma {:induction false} SchedulesKeepOrigins(claims: seq<Claim>, wallets: map<Id, Wallet>, posted: seq<string>, s: State,
                                                actions: seq<Action>)
    requires Sound(claims, s) && Schedule(claims, s, actions) && OriginsSound(claims, wallets, posted, s)
    ensures OriginsSound(claims, wallets, posted, After(claims, s, actions))
    decreases |actions|
  {
    assert |s.pcs| == |claims|;
    hide Sound, Next, Enabled, OriginsSound;
    if actions != [] {
      NextKeepsSound(claims, s, actions[0]);
      NextKeepsOrigins(claims, wallets, posted, s, actions[0]);
      SchedulesKeepOrigins(claims, wallets, posted, Next(claims, s, actions[0]), actions[1..]);
    }
  }

  /** A reservation with the key of call i by another user, both with a wallet, under a key not posted before. */
  ghost predicate Rival(claims: seq<Claim>, wallets: map<Id, Wallet>, posted: seq<string>, i: nat, j: nat)
    requires i < |claims| && j < |claims|
  {
    && claims[j].kind.Reserves? && claims[j].key == claims[i].key && claims[j].user != claims[i].user
    && claims[i].user in wallets && claims[j].user in wallets
    && claims[i].key + ":reservation" !in posted
  }

  /** Call i has been handed the reservation of another user. */
  predicate GotOthers(claims: seq<Claim>, s: State, i: nat)
    requires |s.pcs| == |claims| && i < |claims|
  {
    GotHold(s.pcs[i]) && s.pcs[i].result.hold < |s.holds| && s.holds[s.pcs[i].result.hold].user != claims[i].user
  }

  /** The hold's winner is the rival. */
  lemma OthersNeedRival(claims: seq<Claim>, wallets: map<Id, Wallet>, posted: seq<string>, s: State, i: nat)
    requires Sound(claims, s) && OriginsSound(claims, wallets, posted, s) && i < |claims| && GotOthers(claims, s, i)
    ensures exists j :: 0 <= j < |claims| && Rival(claims, wallets, posted, i, j)
  {
    hide PlacesSound, LocksSound, KeysSound;
    var h := s.pcs[i].result.hold;
    assert ResultSound(claims, s, i) && IsWon(claims, s, h);
    var j :| 0 <= j < |claims| && s.pcs[j] == Ended(Won(h));
    assert ResultSound(claims, s, j);
    assert OriginSound(claims, s, i) && OriginSound(claims, s, j);
    assert s.holds[h] == claims[j] && s.holds[h].key == claims[i].key;
    assert Rival(claims, wallets, posted, i, j);
  }

  /** Nobody but call j has begun. */
  function Alone(claims: seq<Claim>, wallets: map<Id, Wallet>, posted: seq<string>, j: nat, pc: Pc): State
    requires j < |claims|
  {
    var start := Start(claims, wallets, posted);
    start.(pcs := start.pcs[j := pc])
  }

  lemma AloneHasAll(claims: seq<Claim>, wallets: map<Id, Wallet>, posted: seq<string>, j: nat, pc: Pc)
    requires j < |claims|
    ensures var s := Alone(claims, wallets, posted, j, pc);
            && |s.pcs| == |claims| && s.pcs[j] == pc
            && (!HasLock(pc) ==> WalletFree(claims, s, claims[j].user))
            && (!pc.AtCommit? ==> KeyFree(claims, s, claims[j].key))
            && (forall limit :: !HasLimit(claims[j], pc, limit) ==> LimitFree(claims, s, limit))
  {
    var s := Alone(claims, wallets, posted, j, pc);
    assert forall k :: 0 <= k < |claims| && k != j ==> s.pcs[k] == Begin(claims[k]);
  }

  /** It takes its limit rows. */
  lemma {:induction false} AloneTakes(claims: seq<Claim>, wallets: map<Id, Wallet>, rich: map<Id, Wallet>, posted: seq<string>,
                                      j: nat, n: nat)
    requires j < |claims| && claims[j].kind.Reserves? && claims[j].user in rich && Ascending(claims[j].limits)
    requires n <= |claims[j].limits|
    requires Reaches(claims, Start(claims, wallets, posted), Start(claims, rich, posted))
    ensures Reaches(claims, Start(claims, wallets, posted), Alone(claims, rich, posted, j, ToLimits(claims[j], n)))
  {
    hide Reaches, WalletFree, LimitFree, KeyFree, HasLimit, Taken;
    var init := Start(claims, wallets, posted);
    if n == 0 {
      var s := Start(claims, rich, posted);
      var s' := OneStep(claims, init, s, j);
      assert s' == Alone(claims, rich, posted, j, ToLimits(claims[j], 0));
    } else {
      AloneTakes(claims, wallets, rich, posted, j, n - 1);
      var s := Alone(claims, rich, posted, j, AtLimits(n - 1));
      AloneHasAll(claims, rich, posted, j, AtLimits(n - 1));
      NextIsNew(claims[j], n - 1);
      var s' := OneStep(claims, init, s, j);
      assert s' == Alone(claims, rich, posted, j, ToLimits(claims[j], n));
    }
  }

  lemma NextIsNew(c: Claim, taken: nat)
    requires Ascending(c.limits) && taken < |c.limits|
    ensures !HasLimit(c, AtLimits(taken), c.limits[taken])
  {
    NotYetTaken(c.limits, taken);
  }

  /** With enough on its wallet it commits. */
  lemma AloneCommits(claims: seq<Claim>, wallets: map<Id, Wallet>, rich: map<Id, Wallet>, posted: seq<string>, j: nat) returns (s: State)
    requires j < |claims| && claims[j].kind.Reserves? && claims[j].user in rich && Ascending(claims[j].limits)
    requires rich[claims[j].user].balance >= claims[j].amount && claims[j].key + ":reservation" !in posted
    requires Reaches(claims, Start(claims, wallets, posted), Start(claims, rich, posted))
    ensures |s.pcs| == |claims| && Reaches(claims, Start(claims, wallets, posted), s)
    ensures s.holds == [claims[j]] && s.pcs == Start(claims, rich, posted).pcs[j := Ended(Won(0))] && s.wallets.Keys == rich.Keys
  {
    hide Reaches, WalletFree, LimitFree, KeyFree, HasLimit, Taken;
    var init := Start(claims, wallets, posted);
    AloneTakes(claims, wallets, rich, posted, j, |claims[j].limits|);
    s := Alone(claims, rich, posted, j, AtWallet);
    AloneHasAll(claims, rich, posted, j, AtWallet);
    s := OneStep(claims, init, s, j);
    var balance := rich[claims[j].user].balance;
    assert s == Alone(claims, rich, posted, j, AtInsert(balance));
    AloneHasAll(claims, rich, posted, j, AtInsert(balance));
    s := OneStep(claims, init, s, j);
    assert s == Alone(claims, rich, posted, j, AtCommit(balance));
    s := OneStep(claims, init, s, j);
  }

  /** Money comes from elsewhere, the rival commits, and call i finds its row. */
  lemma RivalSuffices(claims: seq<Claim>, wallets: map<Id, Wallet>, posted: seq<string>, i: nat, j: nat) returns (s: State)
    requires i < |claims| && j < |claims| && Rival(claims, wallets, posted, i, j)
    requires claims[i].kind.Reserves? && Ascending(claims[j].limits)
    ensures |s.pcs| == |claims| && Reaches(claims, Start(claims, wallets, posted), s) && GotOthers(claims, s, i)
  {
    hide Reaches;
    var init := Start(claims, wallets, posted);
    var user, funds := claims[j].user, Wallet(claims[j].amount, 0);
    var rich := wallets[user := funds];
    ReachesStart(claims, init);
    ReachesNext(claims, init, init, Elsewhere(user, funds));
    assert Next(claims, init, Elsewhere(user, funds)) == Start(claims, rich, posted);
    s := AloneCommits(claims, wallets, rich, posted, j);
    assert s.pcs[i] == AtLookup;
    assert Find(s.holds, claims[i].key) == Some(0);
    s := OneStep(claims, init, s, i);
  }

  /** The key alone decides: some schedule hands a reservation call the reservation of another user if and only if
      some other user's reservation call has the same key, both users have a wallet, and the key's ledger row is not
      posted yet. */
  lemma KeyIgnoresUser(claims: seq<Claim>, wallets: map<Id, Wallet>, posted: seq<string>, i: nat)
    requires i < |claims| && claims[i].kind.Reserves? && forall k :: 0 <= k < |claims| ==> Ascending(claims[k].limits)
    ensures (exists s: State :: |s.pcs| == |claims| && Reaches(claims, Start(claims, wallets, posted), s) && GotOthers(claims, s, i))
       <==> exists j :: 0 <= j < |claims| && Rival(claims, wallets, posted, i, j)
  {
    hide Reaches, GotOthers, Rival;
    if j :| 0 <= j < |claims| && Rival(claims, wallets, posted, i, j) {
      var s := RivalSuffices(claims, wallets, posted, i, j);
    }
    forall s: State | |s.pcs| == |claims| && Reaches(claims, Start(claims, wallets, posted), s) && GotOthers(claims, s, i)
      ensures exists j :: 0 <= j < |claims| && Rival(claims, wallets, posted, i, j)
    {
      WalletsStay(claims, wallets, posted, s);
      OriginsReached(claims, wallets, posted, s);
      OthersNeedRival(claims, wallets, posted, s, i);
    }
  }

  lemma OriginsReached(claims: seq<Claim>, wallets: map<Id, Wallet>, posted: seq<string>, s: State)
    requires Reaches(claims, Start(claims, wallets, posted), s) && |s.pcs| == |claims|
    ensures OriginsSound(claims, wallets, posted, s)
  {
    var init := Start(claims, wallets, posted);
    assert OriginsSound(claims, wallets, posted, init);
    hide Schedule, After, Sound, OriginsSound;
    var actions :| Schedule(claims, init, actions) && After(claims, init, actions) == s;
    StartIsSound(claims, wallets, posted);
    SchedulesKeepOrigins(claims, wallets, posted, init, actions);
  }

  /** For any two users that can pay: one reserves under a key, and the other is handed that reservation under the
      same key while its own wallet stays as it was. */
  lemma StrangerIsHandedHold(key: string, u: Id, x: int, v: Id, y: int, wallets: map<Id, Wallet>, posted: seq<string>)
    requires u != v && u in wallets && v in wallets && wallets[u].balance >= x && key + ":reservation" !in posted
    ensures var claims := [Claim(key, u, x, [], Reserves), Claim(key, v, y, [], Reserves)];
            exists s: State :: |s.pcs| == 2 && Reaches(claims, Start(claims, wallets, posted), s)
              && s.pcs[1] == Ended(Found(0)) && s.holds == [claims[0]] && s.holds[0].user != v
              && v in s.wallets && s.wallets[v] == wallets[v]
  {
    hide Reaches;
    var claims := [Claim(key, u, x, [], Reserves), Claim(key, v, y, [], Reserves)];
    var init := Start(claims, wallets, posted);
    ReachesStart(claims, init);
    var s := init;
    s := OneStep(claims, init, s, 0);
    assert s == State(wallets, [], posted, [AtWallet, AtLookup]);
    s := OneStep(claims, init, s, 0);
    assert s == State(wallets, [], posted, [AtInsert(wallets[u].balance), AtLookup]);
    s := OneStep(claims, init, s, 0);
    assert s == State(wallets, [], posted, [AtCommit(wallets[u].balance), AtLookup]);
    s := OneStep(claims, init, s, 0);
    assert s.holds == [claims[0]] && s.pcs == [Ended(Won(0)), AtLookup] && s.wallets[v] == wallets[v];
    assert Find(s.holds, key) == Some(0);
    s := OneStep(claims, init, s, 1);
  }

  lemma OneStep(claims: seq<Claim>, init: State, s: State, i: nat) returns (s': State)
    requires Reaches(claims, init, s) && |s.pcs| == |claims| && Enabled(claims, s, Step(i, true))
    ensures s' == Next(claims, s, Step(i, true)) && Reaches(claims, init, s')
  {
    ReachesNext(claims, init, s, Step(i, true));
    s' := Next(claims, s, Step(i, true));
  }
}
