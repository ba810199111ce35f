/**
 The concurrent payment protocol: any number of charge and order transactions interleaved
 statement by statement against one database, with rollbacks anywhere.

 A run is a sequence of actions. Every action names the choices the environment makes in it.
 */
module Payments {
  import opened Wrappers
  import opened Micros
  import opened Ledger

  datatype Phase =
    | Begun
    | Ready(price: Option<int>)                                 // amount checked, or menu row read
    | Locked(price: Option<int>, balance: int)                  // user row read FOR UPDATE
    | Settled(price: Option<int>, balance: int)                 // balance changed in memory
    | Recorded(price: Option<int>, balance: int, historyId: nat)
    | Placed(price: Option<int>, balance: int, historyId: nat, orderId: nat, orderedAt: DateTime)
    | Failing(error: Error, locked: bool)                       // an exception is leaving the method
    | Committed(response: Response)
    | RolledBack

  datatype Tx = Tx(instance: nat, request: Request, phase: Phase)

  datatype State = State(
    books: Books,                       // committed rows
    menus: map<MenuId, Menu>,
    nextHistory: nat,                   // auto-increment counters, never rolled back
    nextOrder: nat,
    owner: map<UserId, nat>,            // user row -> transaction holding its lock
    txs: seq<Tx>)

  datatype Action =
    | Begin(instance: nat, request: Request)
    | Check(tx: nat)
    | Lock(tx: nat)
    | Settle(tx: nat)
    | Record(tx: nat)
    | Place(tx: nat, clock: DateTime)
    | Commit(tx: nat)
    | Rollback(tx: nat)
    | EditMenus(menus: map<MenuId, Menu>)    // made outside the application; rows are never deleted

  predicate Finished(tx: Tx) {
    tx.phase.Committed? || tx.phase.RolledBack?
  }

  predicate HoldsLock(tx: Tx) {
    tx.phase.Locked? || tx.phase.Settled? || HasHistoryId(tx) || (tx.phase.Failing? && tx.phase.locked)
  }

  predicate HasHistoryId(tx: Tx) {
    tx.phase.Recorded? || tx.phase.Placed?
  }

  predicate CanCommit(tx: Tx) {
    if tx.request.Charge? then tx.phase.Recorded? else tx.phase.Placed?
  }

  predicate Enabled(s: State, a: Action) {
    if a.Begin? then true
    else if a.EditMenus? then s.menus.Keys <= a.menus.Keys
    else a.tx < |s.txs| && CanMove(s, a, s.txs[a.tx])
  }

  predicate CanMove(s: State, a: Action, tx: Tx)
    requires !a.Begin? && !a.EditMenus?
  {
    match a
    case Check(_) => tx.phase.Begun?
    case Lock(_) => tx.phase.Ready? && tx.request.user !in s.owner
    case Settle(_) => tx.phase.Locked? && Precheck(tx.request, tx.phase.price) == None
    case Record(_) => tx.phase.Settled?
    case Place(_, clock) => tx.phase.Recorded? && tx.request.Order? && Storable(Truncate(clock))
    case Commit(_) => CanCommit(tx) && Precheck(tx.request, tx.phase.price) == None
    case Rollback(_) => !Finished(tx)
  }

  function PriceSeen(menus: map<MenuId, Menu>, request: Request): Option<int> {
    if request.Order? then MenuPrice(menus, request.menu) else None
  }

  function DrawsOf(tx: Tx): Draws
    requires HasHistoryId(tx)
  {
    if tx.phase.Recorded? then ChargeDraws(tx.phase.historyId).(price := tx.phase.price)
    else Draws(tx.phase.price, tx.phase.historyId, tx.phase.orderId, tx.phase.orderedAt)
  }

  // The phase a transaction enters when it moves.
  function Moved(s: State, a: Action, tx: Tx): Phase
    requires !a.Begin? && !a.EditMenus? && CanMove(s, a, tx)
  {
    match a
    case Check(_) =>
      var price := PriceSeen(s.menus, tx.request);
      (match Precheck(tx.request, price)
       case Some(error) => Failing(error, false)
       case None => Ready(price))
    case Lock(_) =>
      if tx.request.user !in s.books.balances then Failing(USER_NOT_FOUND, false)
      else Locked(tx.phase.price, s.books.balances[tx.request.user])
    case Settle(_) =>
      (match NewBalance(tx.phase.balance, tx.request, tx.phase.price)
       case Ok(balance) => Settled(tx.phase.price, balance)
       case Err(error) => Failing(error, true))
    case Record(_) => Recorded(tx.phase.price, tx.phase.balance, s.nextHistory)
    case Place(_, clock) =>
      Placed(tx.phase.price, tx.phase.balance, tx.phase.historyId, s.nextOrder, Truncate(clock))
    case Commit(_) => Committed(Reply(tx.request, DrawsOf(tx), tx.phase.balance))
    case Rollback(_) => RolledBack
  }

  function Next(s: State, a: Action): State
    requires Enabled(s, a)
  {
    if a.Begin? then s.(txs := s.txs + [Tx(a.instance, a.request, Begun)])
    else if a.EditMenus? then s.(menus := a.menus)
    else
      var tx := s.txs[a.tx];
      var moved := tx.(phase := Moved(s, a, tx));
      State(
        if a.Commit? then Paid(s.books, tx.request, DrawsOf(tx), tx.phase.balance) else s.books,
        s.menus,
        if a.Record? then s.nextHistory + 1 else s.nextHistory,
        if a.Place? then s.nextOrder + 1 else s.nextOrder,
        if HoldsLock(moved) then s.owner[tx.request.user := a.tx]
        else if HoldsLock(tx) then s.owner - {tx.request.user}
        else s.owner,
        s.txs[a.tx := moved])
  }

  // ----- runs

  predicate IsRun(s: State, run: seq<Action>)
    decreases |run|
  {
    run == [] || (Enabled(s, run[0]) && IsRun(Next(s, run[0]), run[1..]))
  }

  function Final(s: State, run: seq<Action>): State
    requires IsRun(s, run)
    decreases |run|
  {
    if run == [] then s else Final(Next(s, run[0]), run[1..])
  }

  // ----- the invariant

  ghost predicate LocksConsistent(s: State) {
    && (forall t :: 0 <= t < |s.txs| && HoldsLock(s.txs[t]) ==>
          s.txs[t].request.user in s.owner && s.owner[s.txs[t].request.user] == t)
    && (forall u :: u in s.owner ==>
          s.owner[u] < |s.txs| && HoldsLock(s.txs[s.owner[u]]) && s.txs[s.owner[u]].request.user == u)
  }

  // The rows of `user` already committed all have smaller ids.
  ghost predicate UserRowsBelow(history: map<nat, HistoryRow>, user: UserId, id: nat) {
    forall h :: h in history && history[h].user == user ==> h < id
  }

  predicate Prechecked(tx: Tx) {
    tx.phase.Ready? || tx.phase.Locked? || tx.phase.Settled? || HasHistoryId(tx)
  }

  // What a transaction in flight knows is still true of the committed rows.
  ghost predicate TxSound(books: Books, nextHistory: nat, nextOrder: nat, tx: Tx) {
    && (Prechecked(tx) ==>
          Precheck(tx.request, tx.phase.price) == None && (tx.request.Charge? ==> tx.phase.price == None))
    && (Prechecked(tx) && !tx.phase.Ready? ==> tx.request.user in books.balances)
    && (tx.phase.Locked? ==> tx.phase.balance == books.balances[tx.request.user])
    && (tx.phase.Settled? || HasHistoryId(tx) ==>
          NewBalance(books.balances[tx.request.user], tx.request, tx.phase.price) == Ok(tx.phase.balance))
    && (HasHistoryId(tx) ==>
          && tx.phase.historyId < nextHistory
          && tx.phase.historyId !in books.history
          && UserRowsBelow(books.history, tx.request.user, tx.phase.historyId))
    && (tx.phase.Placed? ==>
          && tx.request.Order?
          && tx.phase.orderId < nextOrder
          && tx.phase.orderId !in books.orders
          && Aligned(tx.phase.orderedAt) && Storable(tx.phase.orderedAt))
  }

  ghost predicate IdsDiffer(x: Tx, y: Tx) {
    && (HasHistoryId(x) && HasHistoryId(y) ==> x.phase.historyId != y.phase.historyId)
    && (x.phase.Placed? && y.phase.Placed? ==> x.phase.orderId != y.phase.orderId)
  }

  ghost predicate RowsSound(s: State) {
    && (forall u :: u in s.books.balances ==> 0 <= s.books.balances[u] <= LONG_MAX)
    && (forall h :: h in s.books.history ==> h < s.nextHistory)
    && (forall o :: o in s.books.orders ==>
          o < s.nextOrder && Aligned(s.books.orders[o].createdAt) && Storable(s.books.orders[o].createdAt))
  }

  ghost predicate Inv(s: State) {
    && LocksConsistent(s)
    && (forall t :: 0 <= t < |s.txs| ==> TxSound(s.books, s.nextHistory, s.nextOrder, s.txs[t]))
    && (forall t, u :: 0 <= t < u < |s.txs| ==> IdsDiffer(s.txs[t], s.txs[u]))
    && RowsSound(s)
  }

  // What can always happen: a new request, any change of the menus that removes none, and the end of any open
  // transaction by a rollback.
  lemma AlwaysPossible(s: State, instance: nat, request: Request, menus: map<MenuId, Menu>, t: nat)
    ensures Enabled(s, Begin(instance, request))
    ensures Enabled(s, EditMenus(menus)) <==> s.menus.Keys <= menus.Keys
    ensures Enabled(s, Rollback(t)) <==> t < |s.txs| && !s.txs[t].phase.Committed? && !s.txs[t].phase.RolledBack?
  {
  }

  // A shop at rest: no transaction yet, any users, menus and old rows, counters above the rows.
  ghost predicate Init(s: State) {
    s.txs == [] && s.owner == map[] && RowsSound(s)
  }

  lemma InitInv(s: State)
    requires Init(s)
    ensures Inv(s)
  {
  }

  // A transaction that holds its lock after a move either held it before or found the row free.
  lemma LockTaken(s: State, a: Action, tx: Tx)
    requires !a.Begin? && !a.EditMenus? && CanMove(s, a, tx) && HoldsLock(tx.(phase := Moved(s, a, tx)))
    ensures HoldsLock(tx) || tx.request.user !in s.owner
  {
  }

  lemma LocksKept(s: State, a: Action)
    requires LocksConsistent(s) && Enabled(s, a)
    ensures LocksConsistent(Next(s, a))
  {
    if !a.Begin? && !a.EditMenus? {
      var tx := s.txs[a.tx];
      var phase := Moved(s, a, tx);
      if HoldsLock(tx.(phase := phase)) { LockTaken(s, a, tx); }
      MoveKeepsLocks(s, Next(s, a), a.tx, phase);
    }
  }

  lemma MoveKeepsLocks(s: State, s': State, m: nat, phase: Phase)
    requires LocksConsistent(s) && m < |s.txs|
    requires s'.txs == s.txs[m := s.txs[m].(phase := phase)]
    requires HoldsLock(s'.txs[m]) ==> HoldsLock(s.txs[m]) || s.txs[m].request.user !in s.owner
    requires s'.owner == if HoldsLock(s'.txs[m]) then s.owner[s.txs[m].request.user := m]
                         else if HoldsLock(s.txs[m]) then s.owner - {s.txs[m].request.user}
                         else s.owner
    ensures LocksConsistent(s')
  {
  }

  lemma IdsKept(s: State, a: Action)
    requires Inv(s) && Enabled(s, a)
    ensures forall t, u :: 0 <= t < u < |Next(s, a).txs| ==> IdsDiffer(Next(s, a).txs[t], Next(s, a).txs[u])
  {
    var s' := Next(s, a);
    forall t, u | 0 <= t < u < |s'.txs| ensures IdsDiffer(s'.txs[t], s'.txs[u]) {
      if u < |s.txs| {
        assert IdsDiffer(s.txs[t], s.txs[u]);
        assert TxSound(s.books, s.nextHistory, s.nextOrder, s.txs[t]);
        assert TxSound(s.books, s.nextHistory, s.nextOrder, s.txs[u]);
      }
    }
  }

  lemma RowsKept(s: State, a: Action)
    requires Inv(s) && Enabled(s, a)
    ensures RowsSound(Next(s, a))
  {
    if a.Commit? {
      assert TxSound(s.books, s.nextHistory, s.nextOrder, s.txs[a.tx]);
    }
  }

  lemma TxKept(s: State, a: Action, t: nat)
    requires Inv(s) && Enabled(s, a) && t < |Next(s, a).txs|
    ensures var s' := Next(s, a); TxSound(s'.books, s'.nextHistory, s'.nextOrder, s'.txs[t])
  {
    if t < |s.txs| {
      assert TxSound(s.books, s.nextHistory, s.nextOrder, s.txs[t]);
      if a.Commit? && a.tx != t {
        assert IdsDiffer(s.txs[t], s.txs[a.tx]) by {
          assert IdsDiffer(s.txs[if t < a.tx then t else a.tx], s.txs[if t < a.tx then a.tx else t]);
        }
        if HoldsLock(s.txs[t]) {
          // Two holders never have the same user, so the commit touched another user's rows.
          assert s.txs[a.tx].request.user != s.txs[t].request.user;
        }
      }
    }
  }

  lemma StepInv(s: State, a: Action)
    requires Inv(s) && Enabled(s, a)
    ensures Inv(Next(s, a))
  {
    var s' := Next(s, a);
    LocksKept(s, a);
    IdsKept(s, a);
    RowsKept(s, a);
    forall t | 0 <= t < |s'.txs| ensures TxSound(s'.books, s'.nextHistory, s'.nextOrder, s'.txs[t]) {
      TxKept(s, a, t);
    }
  }

  lemma {:induction false} RunInv(s: State, run: seq<Action>)
    requires Inv(s) && IsRun(s, run)
    ensures Inv(Final(s, run))
    decreases |run|
  {
    if run != [] {
      StepInv(s, run[0]);
      RunInv(Next(s, run[0]), run[1..]);
    }
  }
}
