/**
 What the answers of the concurrent protocol say, spelled out: the balance answered is the committed one,
 the price is one the menu had while the request ran, and the order time is a clock reading of the request.
 */
module Answers {
  import opened Wrappers
  import opened Micros
  import opened Ledger
  import opened Payments

  // In every reachable state, committing a charge adds its amount to the balance and one row to the history,
  // and answers the balance the books then hold.
  lemma ChargeAnswersNewBalance(s: State, run: seq<Action>, t: nat)
    requires Inv(s) && IsRun(s, run) && Enabled(Final(s, run), Commit(t)) && Final(s, run).txs[t].request.Charge?
    ensures var e := Final(s, run); var e' := Next(e, Commit(t)); var request := e.txs[t].request;
      && request.amount.Some? && request.amount.value > 0 && request.user in e.books.balances
      && e'.books.balances == e.books.balances[request.user := e.books.balances[request.user] + request.amount.value]
      && e'.books.orders == e.books.orders
      && (exists h: nat :: h !in e.books.history
            && e'.books.history == e.books.history[h := HistoryRow(request.user, request.amount.value, CHARGE)])
      && e'.txs[t].phase == Committed(Charged(request.user, e'.books.balances[request.user]))
  {
    hide *;
    RunInv(s, run);
    CommitCharge(Final(s, run), t);
  }

  lemma CommitCharge(e: State, t: nat)
    requires Inv(e) && Enabled(e, Commit(t)) && e.txs[t].request.Charge?
    ensures var e' := Next(e, Commit(t)); var request := e.txs[t].request;
      && request.amount.Some? && request.amount.value > 0 && request.user in e.books.balances
      && e'.books.balances == e.books.balances[request.user := e.books.balances[request.user] + request.amount.value]
      && e'.books.orders == e.books.orders
      && (exists h: nat :: h !in e.books.history
            && e'.books.history == e.books.history[h := HistoryRow(request.user, request.amount.value, CHARGE)])
      && e'.txs[t].phase == Committed(Charged(request.user, e'.books.balances[request.user]))
  {
    assert TxSound(e.books, e.nextHistory, e.nextOrder, e.txs[t]);
  }

  // Committing an order takes its price from the balance, adds one row to the history and one to the orders, and
  // answers the id, menu and price of the order just inserted and the balance the books then hold.
  lemma OrderAnswersNewBalance(s: State, run: seq<Action>, t: nat)
    requires Inv(s) && IsRun(s, run) && Enabled(Final(s, run), Commit(t)) && Final(s, run).txs[t].request.Order?
    ensures var e := Final(s, run); var e' := Next(e, Commit(t)); var request := e.txs[t].request;
      var answer := e'.txs[t].phase;
      && answer.Committed? && answer.response.Ordered?
      && var o, price := answer.response.orderId, answer.response.price;
         && request.user in e.books.balances && 0 < price <= e.books.balances[request.user]
         && e'.books.balances == e.books.balances[request.user := e.books.balances[request.user] - price]
         && (exists h: nat :: h !in e.books.history
               && e'.books.history == e.books.history[h := HistoryRow(request.user, price, USE)])
         && o !in e.books.orders
         && (exists at: DateTime ::
               e'.books.orders == e.books.orders[o := OrderRow(request.user, request.menu, price, at)])
         && answer.response == Ordered(o, request.user, request.menu, price, e'.books.balances[request.user])
  {
    hide *;
    RunInv(s, run);
    CommitOrder(Final(s, run), t);
  }

  lemma CommitOrder(e: State, t: nat)
    requires Inv(e) && Enabled(e, Commit(t)) && e.txs[t].request.Order?
    ensures var e' := Next(e, Commit(t)); var request := e.txs[t].request; var answer := e'.txs[t].phase;
      && answer.Committed? && answer.response.Ordered?
      && var o, price := answer.response.orderId, answer.response.price;
         && request.user in e.books.balances && 0 < price <= e.books.balances[request.user]
         && e'.books.balances == e.books.balances[request.user := e.books.balances[request.user] - price]
         && (exists h: nat :: h !in e.books.history
               && e'.books.history == e.books.history[h := HistoryRow(request.user, price, USE)])
         && o !in e.books.orders
         && (exists at: DateTime ::
               e'.books.orders == e.books.orders[o := OrderRow(request.user, request.menu, price, at)])
         && answer.response == Ordered(o, request.user, request.menu, price, e'.books.balances[request.user])
  {
    assert TxSound(e.books, e.nextHistory, e.nextOrder, e.txs[t]);
    var phase := e.txs[t].phase;
    assert Next(e, Commit(t)).books.orders == e.books.orders[phase.orderId :=
      OrderRow(e.txs[t].request.user, e.txs[t].request.menu, phase.price.value, phase.orderedAt)];
  }

  // ----- why a request is refused

  // Entering the failing phase with this error.
  predicate Refuses(s: State, a: Action, t: nat, error: Error)
    requires Enabled(s, a)
  {
    && t < |s.txs| && (a == Check(t) || a == Lock(t) || a == Settle(t))
    && Next(s, a).txs[t].phase.Failing? && Next(s, a).txs[t].phase.error == error
  }

  // Each refusal exactly under its condition on the menus and the committed books of the moment it is made.
  lemma RefusedIff(s: State, a: Action, t: nat)
    requires Inv(s) && Enabled(s, a) && t < |s.txs|
    ensures var request := s.txs[t].request; var balances := s.books.balances;
      && (Refuses(s, a, t, MENU_NOT_FOUND) <==> a == Check(t) && request.Order? && request.menu !in s.menus)
      && (Refuses(s, a, t, INVALID_CHARGE_AMOUNT) <==>
            a == Check(t) && request.Charge? && (request.amount.None? || request.amount.value <= 0))
      && (Refuses(s, a, t, USER_NOT_FOUND) <==> a == Lock(t) && request.user !in balances)
      && (Refuses(s, a, t, POINT_BALANCE_OVERFLOW) <==>
            a == Settle(t) && request.Charge? && balances[request.user] + request.amount.value > LONG_MAX)
      && (Refuses(s, a, t, ILLEGAL_ARGUMENT) <==> a == Settle(t) && request.Order? && s.txs[t].phase.price.value <= 0)
      && (Refuses(s, a, t, INSUFFICIENT_POINT) <==>
            a == Settle(t) && request.Order? && balances[request.user] < s.txs[t].phase.price.value
            && s.txs[t].phase.price.value > 0)
      && !Refuses(s, a, t, INSERT_REJECTED)
  {
    assert TxSound(s.books, s.nextHistory, s.nextOrder, s.txs[t]);
    if s.txs[t].request.user in s.books.balances {
      assert 0 <= s.books.balances[s.txs[t].request.user] <= LONG_MAX;
    }
  }

  // ----- where the price and the time of an order come from

  function StateBefore(s: State, run: seq<Action>, k: nat): State
    requires IsRun(s, run) && k <= |run|
    decreases k
  {
    if k == 0 then s else StateBefore(Next(s, run[0]), run[1..], k - 1)
  }

  // The price the transaction works with, or has committed.
  function PriceOf(tx: Tx): Option<int> {
    if Prechecked(tx) then tx.phase.price
    else if tx.phase.Committed? && tx.phase.response.Ordered? then Some(tx.phase.response.price)
    else None
  }

  lemma PriceKept(s: State, a: Action, t: nat)
    requires Inv(s) && Enabled(s, a) && t < |s.txs| && !s.txs[t].phase.Begun?
    ensures t < |Next(s, a).txs| && Next(s, a).txs[t].request == s.txs[t].request
    ensures !Next(s, a).txs[t].phase.Begun?
    ensures PriceOf(Next(s, a).txs[t]) == PriceOf(s.txs[t]) || PriceOf(Next(s, a).txs[t]) == None
  {
    assert TxSound(s.books, s.nextHistory, s.nextOrder, s.txs[t]);
  }

  lemma {:induction false} PriceStays(s: State, run: seq<Action>, t: nat)
    requires Inv(s) && IsRun(s, run) && t < |s.txs| && !s.txs[t].phase.Begun?
    ensures t < |Final(s, run).txs| && Final(s, run).txs[t].request == s.txs[t].request
    ensures PriceOf(Final(s, run).txs[t]) == PriceOf(s.txs[t]) || PriceOf(Final(s, run).txs[t]) == None
    decreases |run|
  {
    if run != [] {
      StepInv(s, run[0]);
      PriceKept(s, run[0], t);
      PriceStays(Next(s, run[0]), run[1..], t);
    }
  }

  // The price an order works with and answers is the one its menu had when its menu row was read.
  lemma {:induction false} PriceWasListed(s: State, run: seq<Action>, t: nat) returns (k: nat)
    requires Inv(s) && IsRun(s, run) && t < |Final(s, run).txs| && Final(s, run).txs[t].request.Order?
    requires t < |s.txs| ==> s.txs[t].phase.Begun?
    requires PriceOf(Final(s, run).txs[t]).Some?
    ensures k < |run| && run[k] == Check(t)
    ensures var menus, menu := StateBefore(s, run, k).menus, Final(s, run).txs[t].request.menu;
      menu in menus && PriceOf(Final(s, run).txs[t]) == Some(menus[menu].price)
    decreases |run|
  {
    var s', rest := Next(s, run[0]), run[1..];
    StepInv(s, run[0]);
    if run[0] == Check(t) {
      k := 0;
      PriceStays(s', rest, t);
    } else {
      if t < |s'.txs| && !s'.txs[t].phase.Begun? {
        PriceStays(s', rest, t);
      }
      k := PriceWasListed(s', rest, t);
      k := k + 1;
    }
  }

  function TimeOf(tx: Tx): Option<DateTime> {
    if tx.phase.Placed? then Some(tx.phase.orderedAt) else None
  }

  lemma {:induction false} TimeStays(s: State, run: seq<Action>, t: nat)
    requires IsRun(s, run) && t < |s.txs| && (s.txs[t].phase.Placed? || Finished(s.txs[t]))
    ensures t < |Final(s, run).txs|
    ensures TimeOf(Final(s, run).txs[t]) == TimeOf(s.txs[t]) || TimeOf(Final(s, run).txs[t]) == None
    decreases |run|
  {
    if run != [] {
      TimeStays(Next(s, run[0]), run[1..], t);
    }
  }

  // The time of an order about to commit is the clock reading of its own insert, cut to microseconds.
  lemma {:induction false} TimeWasRead(s: State, run: seq<Action>, t: nat) returns (k: nat)
    requires IsRun(s, run) && t < |Final(s, run).txs| && Final(s, run).txs[t].phase.Placed?
    requires t < |s.txs| ==> !s.txs[t].phase.Placed?
    ensures k < |run| && run[k].Place? && run[k].tx == t
    ensures Final(s, run).txs[t].phase.orderedAt == Truncate(run[k].clock)
    decreases |run|
  {
    var s', rest := Next(s, run[0]), run[1..];
    if run[0].Place? && run[0].tx == t {
      k := 0;
      TimeStays(s', rest, t);
    } else {
      k := TimeWasRead(s', rest, t);
      k := k + 1;
    }
  }

  // ----- how long a row stays locked

  // A lock is taken by the locking read of its owner and released by nothing but the owner's end.
  lemma LockLifetime(s: State, a: Action, u: UserId)
    requires Inv(s) && Enabled(s, a)
    ensures u in Next(s, a).owner && u !in s.owner ==>
              a.Lock? && s.txs[a.tx].request.user == u && Next(s, a).owner[u] == a.tx
    ensures a.Lock? && s.txs[a.tx].request.user == u ==> (u in Next(s, a).owner <==> u in s.books.balances)
    ensures u in s.owner && (u !in Next(s, a).owner || Next(s, a).owner[u] != s.owner[u]) ==>
              u !in Next(s, a).owner && (a == Commit(s.owner[u]) || a == Rollback(s.owner[u]))
    ensures u in s.owner && (a == Commit(s.owner[u]) || a == Rollback(s.owner[u])) ==> u !in Next(s, a).owner
  {
    if u in s.owner {
      assert HoldsLock(s.txs[s.owner[u]]);
    }
  }
}
