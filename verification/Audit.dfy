/**
 What the committed rows say about each other in every reachable state: the point history read in
 id order explains every balance, although ids are drawn before the commit and rollbacks leave gaps.
 */
module Audit {
  import opened Wrappers
  import opened Micros
  import opened Ledger
  import opened Payments
  import opened Serializability

  function Signed(row: HistoryRow): int {
    if row.kind == CHARGE then row.amount else -row.amount
  }

  // The user's balance after the rows with ids below `n`, in id order.
  function Fold(history: map<nat, HistoryRow>, user: UserId, start: int, n: nat): int {
    if n == 0 then start
    else
      var before := Fold(history, user, start, n - 1);
      if n - 1 in history && history[n - 1].user == user then before + Signed(history[n - 1]) else before
  }

  // Explained(s, opening): every prefix is a legal balance and the last one is the committed balance.
  ghost predicate Explained(s: State, opening: map<UserId, int>) {
    && opening.Keys == s.books.balances.Keys
    && forall u :: u in opening ==>
         && Fold(s.books.history, u, opening[u], s.nextHistory) == s.books.balances[u]
         && forall n: nat :: n <= s.nextHistory ==> 0 <= Fold(s.books.history, u, opening[u], n) <= LONG_MAX
  }

  // Only the user's own rows below `n` matter.
  lemma {:induction false} FoldFrame(
    h: map<nat, HistoryRow>, h': map<nat, HistoryRow>, user: UserId, start: int, n: nat)
    requires forall i: nat :: i < n ==> ((i in h && h[i].user == user) <==> (i in h' && h'[i].user == user))
    requires forall i: nat :: i < n && i in h && h[i].user == user ==> h[i] == h'[i]
    ensures Fold(h, user, start, n) == Fold(h', user, start, n)
  {
    if n > 0 {
      FoldFrame(h, h', user, start, n - 1);
    }
  }

  lemma {:induction false} FoldFlat(h: map<nat, HistoryRow>, user: UserId, start: int, from: nat, n: nat)
    requires from <= n
    requires forall i: nat :: from <= i < n && i in h ==> h[i].user != user
    ensures Fold(h, user, start, n) == Fold(h, user, start, from)
  {
    if n > from {
      FoldFlat(h, user, start, from, n - 1);
    }
  }

  // Inserting the newest row of its user moves every later prefix by that row.
  lemma FoldInsert(h: map<nat, HistoryRow>, row: HistoryRow, id: nat, start: int, n: nat)
    requires id !in h && UserRowsBelow(h, row.user, id)
    ensures Fold(h[id := row], row.user, start, n)
         == Fold(h, row.user, start, n) + if n <= id then 0 else Signed(row)
  {
    var h' := h[id := row];
    if n <= id {
      FoldFrame(h, h', row.user, start, n);
    } else {
      FoldFrame(h, h', row.user, start, id);
      FoldFlat(h, row.user, start, id, n);
      FoldFlat(h', row.user, start, id + 1, n);
    }
  }

  lemma CommitExplained(s: State, a: Action, opening: map<UserId, int>, u: UserId, n: nat)
    requires Inv(s) && Enabled(s, a) && a.Commit? && Explained(s, opening)
    requires u in opening && n <= s.nextHistory
    ensures 0 <= Fold(Next(s, a).books.history, u, opening[u], n) <= LONG_MAX
    ensures n == s.nextHistory ==> Fold(Next(s, a).books.history, u, opening[u], n) == Next(s, a).books.balances[u]
  {
    var tx := s.txs[a.tx];
    assert TxSound(s.books, s.nextHistory, s.nextOrder, tx);
    var row, id := HistoryOf(tx.request, tx.phase.price), tx.phase.historyId;
    var h := s.books.history;
    assert 0 <= Fold(h, u, opening[u], n) <= LONG_MAX;
    if u == row.user {
      FoldInsert(h, row, id, opening[u], n);
      if id < n {
        FoldFlat(h, u, opening[u], n, s.nextHistory);
        assert RowsSound(s);
      }
    } else {
      FoldFrame(h, h[id := row], u, opening[u], n);
    }
  }

  lemma StepExplained(s: State, a: Action, opening: map<UserId, int>)
    requires Inv(s) && Enabled(s, a) && Explained(s, opening)
    ensures Explained(Next(s, a), opening)
  {
    var s' := Next(s, a);
    if a.Commit? {
      assert TxSound(s.books, s.nextHistory, s.nextOrder, s.txs[a.tx]);
      assert s'.books.balances.Keys == s.books.balances.Keys;
      forall u | u in opening
        ensures Fold(s'.books.history, u, opening[u], s'.nextHistory) == s'.books.balances[u]
        ensures forall n: nat :: n <= s'.nextHistory ==> 0 <= Fold(s'.books.history, u, opening[u], n) <= LONG_MAX
      {
        CommitExplained(s, a, opening, u, s.nextHistory);
        forall n: nat | n <= s'.nextHistory
          ensures 0 <= Fold(s'.books.history, u, opening[u], n) <= LONG_MAX
        {
          CommitExplained(s, a, opening, u, n);
        }
      }
    } else if a.Record? {
      assert s'.books == s.books && s.nextHistory !in s.books.history;
    }
  }

  lemma {:induction false} HistoryExplainsBalances(s: State, run: seq<Action>, opening: map<UserId, int>)
    requires Inv(s) && Explained(s, opening) && IsRun(s, run)
    ensures Explained(Final(s, run), opening)
    decreases |run|
  {
    if run != [] {
      StepInv(s, run[0]);
      StepExplained(s, run[0], opening);
      HistoryExplainsBalances(Next(s, run[0]), run[1..], opening);
    }
  }

  // A shop without history is explained by its own balances.
  lemma EmptyHistoryExplained(s: State)
    requires Init(s) && s.books.history == map[]
    ensures Explained(s, s.books.balances)
  {
    forall u, n: nat | u in s.books.balances
      ensures Fold(s.books.history, u, s.books.balances[u], n) == s.books.balances[u]
    {
      FoldFlat(s.books.history, u, s.books.balances[u], 0, n);
    }
  }

  // ----- conservation

  function Total(history: map<nat, HistoryRow>, user: UserId, kind: Kind, n: nat): int {
    if n == 0 then 0
    else Total(history, user, kind, n - 1)
         + if n - 1 in history && history[n - 1].user == user && history[n - 1].kind == kind
           then history[n - 1].amount else 0
  }

  lemma {:induction false} FoldIsTotals(history: map<nat, HistoryRow>, user: UserId, start: int, n: nat)
    ensures Fold(history, user, start, n) == start + Total(history, user, CHARGE, n) - Total(history, user, USE, n)
  {
    if n > 0 {
      FoldIsTotals(history, user, start, n - 1);
    }
  }

  // What all rows of the user add up to.
  function Net(s: State, u: UserId): int {
    Total(s.books.history, u, CHARGE, s.nextHistory) - Total(s.books.history, u, USE, s.nextHistory)
  }

  lemma StepConserves(s: State, a: Action, u: UserId)
    requires Inv(s) && Enabled(s, a) && u in s.books.balances
    ensures u in Next(s, a).books.balances
    ensures Next(s, a).books.balances[u] - Net(Next(s, a), u) == s.books.balances[u] - Net(s, u)
  {
    var s' := Next(s, a);
    var h, h' := s.books.history, s'.books.history;
    FoldIsTotals(h, u, 0, s.nextHistory);
    FoldIsTotals(h', u, 0, s'.nextHistory);
    if a.Commit? {
      var tx := s.txs[a.tx];
      assert TxSound(s.books, s.nextHistory, s.nextOrder, tx);
      if u == tx.request.user {
        FoldInsert(h, HistoryOf(tx.request, tx.phase.price), tx.phase.historyId, 0, s.nextHistory);
      } else {
        FoldFrame(h, h', u, 0, s.nextHistory);
      }
    } else if a.Record? {
      assert s.nextHistory !in h;
    }
  }

  // The invariant the repository's concurrency test asserts once, from every reachable state: what a run adds to
  // a balance is what it adds to the charges less what it adds to the uses, and no balance leaves its range.
  lemma {:induction false} PointsConserved(s: State, run: seq<Action>, u: UserId)
    requires Inv(s) && IsRun(s, run) && u in s.books.balances
    ensures var e := Final(s, run);
      && u in e.books.balances
      && 0 <= e.books.balances[u] <= LONG_MAX
      && e.books.balances[u] - s.books.balances[u] == Net(e, u) - Net(s, u)
    decreases |run|
  {
    if run != [] {
      StepInv(s, run[0]);
      StepConserves(s, run[0], u);
      PointsConserved(Next(s, run[0]), run[1..], u);
    }
  }

  // ----- orders and USE rows

  // `pair` sends every order to its own USE row, and every USE row is the row of an order.
  ghost predicate Paired(books: Books, pair: map<nat, nat>) {
    && pair.Keys == books.orders.Keys
    && (forall o :: o in pair ==>
          pair[o] in books.history
          && books.history[pair[o]] == HistoryRow(books.orders[o].user, books.orders[o].price, USE))
    && (forall o, o' :: o in pair && o' in pair && pair[o] == pair[o'] ==> o == o')
    && (forall h :: h in books.history && books.history[h].kind == USE ==> h in pair.Values)
  }

  lemma StepPaired(s: State, a: Action, pair: map<nat, nat>) returns (pair': map<nat, nat>)
    requires Inv(s) && Enabled(s, a) && Paired(s.books, pair)
    ensures Paired(Next(s, a).books, pair')
  {
    pair' := pair;
    if a.Commit? {
      var tx := s.txs[a.tx];
      assert TxSound(s.books, s.nextHistory, s.nextOrder, tx);
      if tx.request.Order? {
        pair' := pair[tx.phase.orderId := tx.phase.historyId];
        assert tx.phase.orderId !in pair;
        forall h | h in Next(s, a).books.history && Next(s, a).books.history[h].kind == USE
          ensures h in pair'.Values
        {
          if h == tx.phase.historyId {
            assert pair'[tx.phase.orderId] == h;
          } else {
            var o :| o in pair && pair[o] == h;
            assert pair'[o] == h;
          }
        }
      }
    }
  }

  lemma {:induction false} OrdersMatchUses(s: State, run: seq<Action>, pair: map<nat, nat>)
    returns (pair': map<nat, nat>)
    requires Inv(s) && IsRun(s, run) && Paired(s.books, pair)
    ensures Paired(Final(s, run).books, pair')
    decreases |run|
  {
    pair' := pair;
    if run != [] {
      StepInv(s, run[0]);
      pair' := StepPaired(s, run[0], pair);
      pair' := OrdersMatchUses(Next(s, run[0]), run[1..], pair');
    }
  }

  // ----- id order is commit order, user by user

  lemma {:induction false} LaterIdsAreLarger(s: State, run: seq<Action>, h: nat, j: nat)
    requires Inv(s) && IsRun(s, run) && h in s.books.history && j < |Log(s, run)|
    requires Log(s, run)[j].outcome.Ok? && Log(s, run)[j].request.user == s.books.history[h].user
    ensures h < Log(s, run)[j].draws.historyId
    decreases |run|
  {
    var first, s' := Logged(s, run[0]), Next(s, run[0]);
    if j < |first| {
      NewIdIsLargest(s, run[0], h);
    } else {
      StepInv(s, run[0]);
      HistoryGrows(s, run[0], h);
      LaterIdsAreLarger(s', run[1..], h, j - |first|);
    }
  }

  lemma NewIdIsLargest(s: State, a: Action, h: nat)
    requires Inv(s) && Enabled(s, a) && h in s.books.history && Logged(s, a) != []
    requires Logged(s, a)[0].outcome.Ok? && Logged(s, a)[0].request.user == s.books.history[h].user
    ensures |Logged(s, a)| == 1 && h < Logged(s, a)[0].draws.historyId
  {
    assert TxSound(s.books, s.nextHistory, s.nextOrder, s.txs[a.tx]);
  }

  // Committed rows are never changed.
  lemma HistoryGrows(s: State, a: Action, h: nat)
    requires Inv(s) && Enabled(s, a) && h in s.books.history
    ensures h in Next(s, a).books.history && Next(s, a).books.history[h] == s.books.history[h]
  {
    if a.Commit? {
      assert TxSound(s.books, s.nextHistory, s.nextOrder, s.txs[a.tx]);
    }
  }

  lemma {:induction false} IdOrderIsCommitOrder(s: State, run: seq<Action>, i: nat, j: nat)
    requires Inv(s) && IsRun(s, run) && i < j < |Log(s, run)|
    requires Log(s, run)[i].outcome.Ok? && Log(s, run)[j].outcome.Ok?
    requires Log(s, run)[i].request.user == Log(s, run)[j].request.user
    ensures Log(s, run)[i].draws.historyId < Log(s, run)[j].draws.historyId
    decreases |run|
  {
    hide Logged, Next, Enabled, Inv;
    var first, s' := Logged(s, run[0]), Next(s, run[0]);
    var rest := Log(s', run[1..]);
    assert Log(s, run) == first + rest;
    StepInv(s, run[0]);
    if i >= |first| {
      IdOrderIsCommitOrder(s', run[1..], i - |first|, j - |first|);
    } else {
      assert first[0] == (first + rest)[0];
      CommitInserts(s, run[0]);
      LaterIdsAreLarger(s', run[1..], first[0].draws.historyId, j - 1);
    }
  }

  lemma CommitInserts(s: State, a: Action)
    requires Inv(s) && Enabled(s, a) && Logged(s, a) != [] && Logged(s, a)[0].outcome.Ok?
    ensures |Logged(s, a)| == 1
    ensures var e := Logged(s, a)[0]; var history := Next(s, a).books.history;
      e.draws.historyId in history && history[e.draws.historyId].user == e.request.user
  {
    assert TxSound(s.books, s.nextHistory, s.nextOrder, s.txs[a.tx]);
  }
}
