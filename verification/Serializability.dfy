/**
 Every interleaving is equivalent to running the requests one at a time.

 The log of a run lists, in the order in which they are decided, the requests that committed and
 the requests refused by a business rule. Replaying it with `Serial` gives the same books and the
 same answer to every request. Transactions rolled back for any other reason do not occur in it.
 */
module Serializability {
  import opened Wrappers
  import opened Ledger
  import opened Payments

  datatype Entry = Entry(tx: nat, request: Request, draws: Draws, outcome: Result<Response, Error>)

  function Refusal(t: nat, tx: Tx, price: Option<int>, error: Error): Entry {
    Entry(t, tx.request, ChargeDraws(0).(price := price), Err(error))
  }

  // What one action adds to the log: the outcome is read off the phase the transaction enters.
  function Logged(s: State, a: Action): (log: seq<Entry>)
    requires Enabled(s, a)
    ensures |log| <= 1
  {
    if !(a.Check? || a.Lock? || a.Settle? || a.Commit?) then []
    else
      var tx, phase := s.txs[a.tx], Next(s, a).txs[a.tx].phase;
      if phase.Committed? then [Entry(a.tx, tx.request, DrawsOf(tx), Ok(phase.response))]
      else if phase.Failing? then
        [Refusal(a.tx, tx, if a.Check? then PriceSeen(s.menus, tx.request) else tx.phase.price, phase.error)]
      else []
  }

  function Log(s: State, run: seq<Action>): seq<Entry>
    requires IsRun(s, run)
    decreases |run|
  {
    if run == [] then [] else Logged(s, run[0]) + Log(Next(s, run[0]), run[1..])
  }

  // The books after running the logged requests one at a time.
  function Replay(books: Books, log: seq<Entry>): Books
    decreases |log|
  {
    if log == [] then books else Replay(Serial(books, log[0].request, log[0].draws).0, log[1..])
  }

  // Running alone, each logged request gets the answer it got in the run.
  predicate SameAnswers(books: Books, log: seq<Entry>)
    decreases |log|
  {
    log == [] ||
    (var (books', outcome) := Serial(books, log[0].request, log[0].draws);
     outcome == log[0].outcome && SameAnswers(books', log[1..]))
  }

  lemma StepSerial(s: State, a: Action)
    requires Inv(s) && Enabled(s, a)
    ensures Replay(s.books, Logged(s, a)) == Next(s, a).books
    ensures SameAnswers(s.books, Logged(s, a))
  {
    if a.Check? || a.Lock? || a.Settle? || a.Commit? {
      assert TxSound(s.books, s.nextHistory, s.nextOrder, s.txs[a.tx]);
      var log := Logged(s, a);
      if log != [] {
        assert log[1..] == [];
      }
    }
  }

  lemma {:induction false} ReplayAppend(books: Books, xs: seq<Entry>, ys: seq<Entry>)
    ensures Replay(books, xs + ys) == Replay(Replay(books, xs), ys)
    ensures SameAnswers(books, xs + ys) <==> SameAnswers(books, xs) && SameAnswers(Replay(books, xs), ys)
    decreases |xs|
  {
    if xs == [] {
      assert xs + ys == ys;
    } else {
      assert (xs + ys)[1..] == xs[1..] + ys;
      ReplayAppend(Serial(books, xs[0].request, xs[0].draws).0, xs[1..], ys);
    }
  }

  lemma {:induction false} Serializable(s: State, run: seq<Action>)
    requires Inv(s) && IsRun(s, run)
    ensures Replay(s.books, Log(s, run)) == Final(s, run).books
    ensures SameAnswers(s.books, Log(s, run))
    decreases |run|
  {
    if run != [] {
      var s' := Next(s, run[0]);
      StepInv(s, run[0]);
      StepSerial(s, run[0]);
      Serializable(s', run[1..]);
      ReplayAppend(s.books, Logged(s, run[0]), Log(s', run[1..]));
    }
  }

  // ----- the log holds every answer, once

  predicate Holds(log: seq<Entry>, t: nat, request: Request, outcome: Result<Response, Error>) {
    exists i :: 0 <= i < |log| && log[i].tx == t && log[i].request == request && log[i].outcome == outcome
  }

  predicate Decided(tx: Tx) {
    Finished(tx) || tx.phase.Failing?
  }

  lemma {:induction false} PhasesPersist(s: State, run: seq<Action>, t: nat)
    requires IsRun(s, run) && t < |s.txs|
    ensures t < |Final(s, run).txs| && Final(s, run).txs[t].request == s.txs[t].request
    ensures s.txs[t].phase.Committed? ==> Final(s, run).txs[t] == s.txs[t]
    ensures Decided(s.txs[t]) ==> Decided(Final(s, run).txs[t])
    ensures Decided(s.txs[t]) && !s.txs[t].phase.Committed? ==> !Final(s, run).txs[t].phase.Committed?
    decreases |run|
  {
    if run != [] {
      PhasesPersist(Next(s, run[0]), run[1..], t);
    }
  }

  // A request's response is exactly the outcome logged for its transaction.
  lemma {:induction false} CommittedIsLogged(s: State, run: seq<Action>, t: nat)
    requires IsRun(s, run) && t < |Final(s, run).txs|
    requires Final(s, run).txs[t].phase.Committed?
    requires t < |s.txs| ==> !Finished(s.txs[t])
    ensures Holds(Log(s, run), t, Final(s, run).txs[t].request, Ok(Final(s, run).txs[t].phase.response))
    decreases |run|
  {
    var s' := Next(s, run[0]);
    var first, rest := Logged(s, run[0]), Log(s', run[1..]);
    if t < |s'.txs| && Finished(s'.txs[t]) {
      PhasesPersist(s', run[1..], t);
      assert first[0].tx == t;
      assert Log(s, run)[0] == first[0];
    } else {
      CommittedIsLogged(s', run[1..], t);
      var i :| 0 <= i < |rest| && rest[i].tx == t && rest[i].request == Final(s, run).txs[t].request
               && rest[i].outcome == Ok(Final(s, run).txs[t].phase.response);
      assert Log(s, run)[|first| + i] == rest[i];
    }
  }

  // A request refused by a business rule is logged with the error that leaves the method.
  lemma {:induction false} RefusedIsLogged(s: State, run: seq<Action>, t: nat)
    requires IsRun(s, run) && t < |Final(s, run).txs| && Final(s, run).txs[t].phase.Failing?
    requires t < |s.txs| ==> !Decided(s.txs[t])
    ensures Holds(Log(s, run), t, Final(s, run).txs[t].request, Err(Final(s, run).txs[t].phase.error))
    decreases |run|
  {
    var s' := Next(s, run[0]);
    var first, rest := Logged(s, run[0]), Log(s', run[1..]);
    if t < |s'.txs| && Decided(s'.txs[t]) {
      FailingStays(s', run[1..], t);
      assert first[0].tx == t;
      assert Log(s, run)[0] == first[0];
    } else {
      RefusedIsLogged(s', run[1..], t);
      var i :| 0 <= i < |rest| && rest[i].tx == t && rest[i].request == Final(s, run).txs[t].request
               && rest[i].outcome == Err(Final(s, run).txs[t].phase.error);
      assert Log(s, run)[|first| + i] == rest[i];
    }
  }

  lemma {:induction false} FailingStays(s: State, run: seq<Action>, t: nat)
    requires IsRun(s, run) && t < |s.txs| && Decided(s.txs[t])
    ensures t < |Final(s, run).txs| && Final(s, run).txs[t].request == s.txs[t].request
    ensures Final(s, run).txs[t].phase.Failing? ==> Final(s, run).txs[t].phase == s.txs[t].phase
    decreases |run|
  {
    if run != [] {
      FailingStays(Next(s, run[0]), run[1..], t);
    }
  }

  // Conversely every logged success is the response of a committed transaction, and
  // a request that was rolled back is never logged as a success.
  lemma {:induction false} LoggedIsCommitted(s: State, run: seq<Action>, i: nat)
    requires IsRun(s, run) && i < |Log(s, run)|
    ensures var e := Log(s, run)[i];
      && e.tx < |Final(s, run).txs|
      && Final(s, run).txs[e.tx].request == e.request
      && (e.outcome.Ok? ==> Final(s, run).txs[e.tx].phase == Committed(e.outcome.value))
      && (e.outcome.Err? ==> Decided(Final(s, run).txs[e.tx]) && !Final(s, run).txs[e.tx].phase.Committed?)
    decreases |run|
  {
    var s' := Next(s, run[0]);
    var first, rest := Logged(s, run[0]), Log(s', run[1..]);
    if i < |first| {
      PhasesPersist(s', run[1..], run[0].tx);
    } else {
      LoggedIsCommitted(s', run[1..], i - |first|);
    }
  }

  lemma {:induction false} DecidedNotLogged(s: State, run: seq<Action>, t: nat, i: nat)
    requires IsRun(s, run) && t < |s.txs| && Decided(s.txs[t]) && i < |Log(s, run)|
    ensures Log(s, run)[i].tx != t
    decreases |run|
  {
    var s' := Next(s, run[0]);
    var first := Logged(s, run[0]);
    if i >= |first| {
      DecidedNotLogged(s', run[1..], t, i - |first|);
    }
  }

  lemma {:induction false} LoggedOnce(s: State, run: seq<Action>, i: nat, j: nat)
    requires IsRun(s, run) && i < j < |Log(s, run)|
    ensures Log(s, run)[i].tx != Log(s, run)[j].tx
    decreases |run|
  {
    var s' := Next(s, run[0]);
    var first := Logged(s, run[0]);
    if i >= |first| {
      LoggedOnce(s', run[1..], i - |first|, j - |first|);
    } else {
      assert |first| == 1;
      DecidedNotLogged(s', run[1..], first[0].tx, j - 1);
    }
  }

  // ----- the serial order respects real time

  lemma {:induction false} LogSplits(s: State, xs: seq<Action>, ys: seq<Action>)
    requires IsRun(s, xs + ys)
    ensures IsRun(s, xs) && IsRun(Final(s, xs), ys)
    ensures Final(s, xs + ys) == Final(Final(s, xs), ys)
    ensures Log(s, xs + ys) == Log(s, xs) + Log(Final(s, xs), ys)
    decreases |xs|
  {
    if xs == [] {
      assert xs + ys == ys;
    } else {
      assert (xs + ys)[1..] == xs[1..] + ys;
      LogSplits(Next(s, xs[0]), xs[1..], ys);
    }
  }

  // A request decided before another one begins comes before it in the serial order.
  lemma RealTimeOrder(s: State, xs: seq<Action>, ys: seq<Action>, i: nat, j: nat)
    requires IsRun(s, xs + ys) && i < |Log(s, xs + ys)| && j < |Log(s, xs + ys)|
    requires IsRun(s, xs)
    requires Log(s, xs + ys)[i].tx < |Final(s, xs).txs| && Decided(Final(s, xs).txs[Log(s, xs + ys)[i].tx])
    requires Log(s, xs + ys)[j].tx >= |Final(s, xs).txs|
    ensures i < j
  {
    LogSplits(s, xs, ys);
    var before, after := Log(s, xs), Log(Final(s, xs), ys);
    if i >= |before| {
      DecidedNotLogged(Final(s, xs), ys, Log(s, xs + ys)[i].tx, i - |before|);
    }
    if j < |before| {
      LoggedIsCommitted(s, xs, j);
    }
  }
}
