/** The row locks never deadlock and every request can be driven to an answer. */
module Progress {
  import opened Micros
  import opened Ledger
  import opened Payments

  // `t` is blocked on the row that `u` has locked.
  predicate WaitsFor(s: State, t: nat, u: nat) {
    && t < |s.txs| && s.txs[t].phase.Ready?
    && s.txs[t].request.user in s.owner && s.owner[s.txs[t].request.user] == u
  }

  predicate IsWaitPath(s: State, path: seq<nat>) {
    |path| <= 1 || (WaitsFor(s, path[0], path[1]) && IsWaitPath(s, path[1..]))
  }

  lemma OwnerNeverWaits(s: State, t: nat, u: nat)
    requires Inv(s) && WaitsFor(s, t, u)
    ensures t != u
    ensures forall v: nat :: !WaitsFor(s, u, v)
  {
    assert HoldsLock(s.txs[u]);
  }

  // A wait path has at most one edge and does not close; a transaction owns at most one row.
  lemma NoDeadlock(s: State, path: seq<nat>)
    requires Inv(s) && IsWaitPath(s, path)
    ensures |path| <= 2
    ensures |path| == 2 ==> path[0] != path[1]
    ensures forall u, v :: u in s.owner && v in s.owner && s.owner[u] == s.owner[v] ==> u == v
  {
    if |path| >= 2 {
      OwnerNeverWaits(s, path[0], path[1]);
    }
  }

  function Rank(tx: Tx): nat {
    match tx.phase
    case Begun => 6
    case Ready(_) => 5
    case Locked(_, _) => 4
    case Settled(_, _) => 3
    case Recorded(_, _, _) => 2
    case Placed(_, _, _, _, _) => 1
    case Failing(_, _) => 1
    case Committed(_) => 0
    case RolledBack => 0
  }

  // The statements still to execute, over all transactions.
  function Work(txs: seq<Tx>): nat {
    if txs == [] then 0 else Work(txs[..|txs| - 1]) + Rank(txs[|txs| - 1])
  }

  lemma {:induction false} WorkUpdate(txs: seq<Tx>, t: nat, tx: Tx)
    requires t < |txs|
    ensures Work(txs[t := tx]) == Work(txs) - Rank(txs[t]) + Rank(tx)
  {
    var n := |txs| - 1;
    if t == n {
      assert txs[t := tx][..n] == txs[..n];
    } else {
      assert txs[t := tx][..n] == txs[..n][t := tx];
      WorkUpdate(txs[..n], t, tx);
    }
  }

  lemma MoveDecreasesWork(s: State, a: Action)
    requires Enabled(s, a) && !a.Begin? && !a.EditMenus?
    ensures Work(Next(s, a).txs) < Work(s.txs)
  {
    var tx := s.txs[a.tx];
    WorkUpdate(s.txs, a.tx, tx.(phase := Moved(s, a, tx)));
  }

  // The next statement of transaction `t`; a failing one rolls back.
  function Statement(s: State, t: nat): Action
    requires t < |s.txs|
  {
    match s.txs[t].phase
    case Begun => Check(t)
    case Ready(_) => Lock(t)
    case Locked(_, _) => Settle(t)
    case Settled(_, _) => Record(t)
    case Recorded(_, _, _) => if s.txs[t].request.Charge? then Commit(t) else Place(t, Stamp(0, 0))
    case Placed(_, _, _, _, _) => Commit(t)
    case _ => Rollback(t)
  }

  // Blocked transactions exist only while the owner of their row can execute its next statement.
  lemma SomeoneCanStep(s: State, t: nat) returns (m: nat)
    requires Inv(s) && t < |s.txs| && !Finished(s.txs[t])
    ensures m < |s.txs| && !Finished(s.txs[m]) && Enabled(s, Statement(s, m))
    ensures m == t || WaitsFor(s, t, m)
  {
    var tx := s.txs[t];
    m := if tx.phase.Ready? && tx.request.user in s.owner then s.owner[tx.request.user] else t;
    assert TxSound(s.books, s.nextHistory, s.nextOrder, s.txs[m]);
  }

  // An orderly run starts nothing and rolls back only requests that are already failing.
  ghost predicate Orderly(s: State, run: seq<Action>)
    requires IsRun(s, run)
    decreases |run|
  {
    run == [] ||
    (&& (exists t: nat :: t < |s.txs| && !Finished(s.txs[t]) && run[0] == Statement(s, t))
     && Orderly(Next(s, run[0]), run[1..]))
  }

  // From every reachable state every open request can be brought to its answer.
  lemma {:induction false} EveryRequestCanFinish(s: State) returns (run: seq<Action>)
    requires Inv(s)
    ensures IsRun(s, run) && Orderly(s, run)
    ensures forall t :: 0 <= t < |Final(s, run).txs| ==> Finished(Final(s, run).txs[t])
    decreases Work(s.txs)
  {
    run := [];
    if t :| 0 <= t < |s.txs| && !Finished(s.txs[t]) {
      var m := SomeoneCanStep(s, t);
      var a := Statement(s, m);
      StepInv(s, a);
      MoveDecreasesWork(s, a);
      var rest := EveryRequestCanFinish(Next(s, a));
      run := [a] + rest;
      assert run[1..] == rest;
    }
  }

  function Moves(run: seq<Action>): nat {
    if run == [] then 0 else (if run[0].Begin? || run[0].EditMenus? then 0 else 1) + Moves(run[1..])
  }

  function Begins(run: seq<Action>): nat {
    if run == [] then 0 else (if run[0].Begin? then 1 else 0) + Begins(run[1..])
  }

  // No schedule goes on for ever: six statements per request, whatever the interleaving.
  lemma {:induction false} RunsAreBounded(s: State, run: seq<Action>)
    requires IsRun(s, run)
    ensures Moves(run) + Work(Final(s, run).txs) <= Work(s.txs) + 6 * Begins(run)
    decreases |run|
  {
    if run != [] {
      var s' := Next(s, run[0]);
      if run[0].Begin? {
        assert s'.txs[..|s'.txs| - 1] == s.txs;
      } else if !run[0].EditMenus? {
        MoveDecreasesWork(s, run[0]);
      }
      RunsAreBounded(s', run[1..]);
    }
  }
}
