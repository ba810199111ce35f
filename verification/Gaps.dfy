/**
 Where the read model differs from the query although no flag is set: an update that never reached
 Redis is never made good, and a null ZCOUNT hides its menu.
 */
module Gaps {
  import opened Wrappers
  import opened Micros
  import opened Ledger
  import opened RedisCounter
  import Payments
  import opened Ranking
  import opened Delivery

  // A committed order that is not in Redis and whose listener will not run any more.
  ghost predicate Lost(s: Sys, o: nat) {
    && o in s.shop.books.orders
    && o !in s.out.redisQueue
    && o !in Members(s.out.zsets, s.shop.books.orders[o].menu)
  }

  // The two ways to lose an order: a crash before its listener ran, which leaves the flag of the restarted
  // instance clear, and a failed ZADD, which sets the flag of its own instance only.
  lemma CrashLoses(s: Sys, o: nat)
    requires Inv(s) && o in s.out.redisQueue && o !in Members(s.out.zsets, s.shop.books.orders[o].menu)
    requires Enabled(s, Crash(s.out.redisQueue[o].instance))
    ensures var i := s.out.redisQueue[o].instance; var s' := Next(s, Crash(i));
      Lost(s', o) && s'.out.stale == s.out.stale - {i}
  {
  }

  lemma LostUpdateLoses(s: Sys, o: nat)
    requires Inv(s) && o in s.out.redisQueue && o !in Members(s.out.zsets, s.shop.books.orders[o].menu)
    ensures var s' := Next(s, Deliver(o, Fault.Lost));
      Lost(s', o) && s'.out.stale == s.out.stale + {s.out.redisQueue[o].instance}
  {
  }

  lemma StepLost(s: Sys, step: Step, o: nat)
    requires Inv(s) && Enabled(s, step) && Lost(s, o)
    ensures Lost(Next(s, step), o)
  {
    if step.Pay? {
      OrdersGrow(s.shop, step.action);
    }
  }

  lemma {:induction false} LostForever(s: Sys, run: seq<Step>, o: nat)
    requires Inv(s) && IsRun(s, run) && Lost(s, o)
    ensures Inv(Final(s, run)) && Lost(Final(s, run), o)
    ensures Final(s, run).shop.books.orders[o] == s.shop.books.orders[o]
    decreases |run|
  {
    if run != [] {
      StepInv(s, run[0]);
      StepLost(s, run[0], o);
      if run[0].Pay? {
        OrdersGrow(s.shop, run[0].action);
      }
      LostForever(Next(s, run[0]), run[1..], o);
    }
  }

  // Once a count is short with no listener waiting, it is short after every run, whatever is ordered,
  // restarted or read in between.
  lemma UndercountIsForever(s: Sys, run: seq<Step>, menu: MenuId, from: DateTime, to: DateTime)
    requires Inv(s) && IsRun(s, run) && SafeWindow(from, to) && s.out.redisQueue == map[]
    requires ZCount(s.out.zsets, menu, Score(from), HighScore(to)) < |Group(s.shop.books.orders, menu, from, to)|
    ensures var e := Final(s, run);
      ZCount(e.out.zsets, menu, Score(from), HighScore(to)) < |Group(e.shop.books.orders, menu, from, to)|
  {
    hide HighScore, SafeWindow;
    CountExactIff(s, menu, from, to);
    var o :| o in Group(s.shop.books.orders, menu, from, to) && o !in Members(s.out.zsets, menu);
    LostForever(s, run, o);
    CountExactIff(Final(s, run), menu, from, to);
    RedisNeverOvercounts(s, run, menu, from, to);
  }

  // ----- and the only ways

  // No update has been applied while its listener still waits.
  ghost predicate Undelivered(s: Sys) {
    forall o :: o in s.out.redisQueue && o in s.shop.books.orders ==>
      o !in Members(s.out.zsets, s.shop.books.orders[o].menu)
  }

  // Redis equals the orders, those apart whose listener still waits.
  ghost predicate InStep(s: Sys) {
    && Undelivered(s)
    && forall o :: o in s.shop.books.orders && o !in s.out.redisQueue ==>
         o in Members(s.out.zsets, s.shop.books.orders[o].menu)
  }

  // The step loses the waiting update of `o`: its ZADD is lost, or its instance dies.
  predicate Loses(s: Sys, step: Step, o: nat) {
    o in s.out.redisQueue && (step == Deliver(o, Fault.Lost) || step == Crash(s.out.redisQueue[o].instance))
  }

  lemma PayLosesNothing(s: Sys, a: Payments.Action, o: nat)
    requires Inv(s) && Undelivered(s) && Payments.Enabled(s.shop, a)
    ensures Undelivered(Next(s, Pay(a)))
    ensures Lost(Next(s, Pay(a)), o) <==> Lost(s, o)
  {
    OrdersGrow(s.shop, a);
  }

  lemma DeliverLosesIff(s: Sys, order: nat, fault: Fault, o: nat)
    requires Inv(s) && Undelivered(s) && order in s.out.redisQueue
    ensures var s' := Next(s, Deliver(order, fault));
      && Undelivered(s')
      && (Lost(s', o) <==> Lost(s, o) || Loses(s, Deliver(order, fault), o))
  {
    hide Score, Payments.Inv, RedisSound;
    var event := s.out.redisQueue[order].event;
    assert event == EventOf(order, s.shop.books.orders[order]);
  }

  lemma CrashLosesIff(s: Sys, i: nat, o: nat)
    requires Inv(s) && Undelivered(s) && Enabled(s, Crash(i))
    ensures var s' := Next(s, Crash(i));
      && Undelivered(s')
      && (Lost(s', o) <==> Lost(s, o) || Loses(s, Crash(i), o))
  {
    hide Payments.Inv, RedisSound, Enabled;
  }

  lemma StepLosesIff(s: Sys, step: Step, o: nat)
    requires Inv(s) && Undelivered(s) && Enabled(s, step)
    ensures Undelivered(Next(s, step))
    ensures Lost(Next(s, step), o) <==> Lost(s, o) || Loses(s, step, o)
  {
    hide Inv;
    match step
    case Pay(a) => PayLosesNothing(s, a, o);
    case Deliver(order, fault) => DeliverLosesIff(s, order, fault, o);
    case Crash(i) => CrashLosesIff(s, i, o);
    case Send(_, _) =>
    case Read(_, _) =>
  }

  // The state before the `k`-th step.
  function StateBefore(s: Sys, run: seq<Step>, k: nat): Sys
    requires IsRun(s, run) && k <= |run|
    decreases k
  {
    if k == 0 then s else StateBefore(Next(s, run[0]), run[1..], k - 1)
  }

  ghost predicate LosesAt(s: Sys, run: seq<Step>, o: nat, k: nat)
    requires IsRun(s, run)
  {
    k < |run| && Loses(StateBefore(s, run, k), run[k], o)
  }

  // Exactly when an order is lost after a run, whatever else happens in it: some step of the run lost its update.
  lemma {:induction false} LostIff(s: Sys, run: seq<Step>, o: nat)
    requires Inv(s) && Undelivered(s) && IsRun(s, run)
    ensures Undelivered(Final(s, run))
    ensures Lost(Final(s, run), o) <==> Lost(s, o) || exists k: nat :: LosesAt(s, run, o, k)
    decreases |run|
  {
    if run != [] {
      hide Loses, Lost, Undelivered, Inv, Enabled, Next;
      var s', rest := Next(s, run[0]), run[1..];
      StepInv(s, run[0]);
      StepLosesIff(s, run[0], o);
      LostIff(s', rest, o);
      assert LosesAt(s, run, o, 0) <==> Loses(s, run[0], o);
      forall k: nat ensures LosesAt(s, run, o, k + 1) <==> LosesAt(s', rest, o, k) {
        if k < |rest| {
          assert run[k + 1] == rest[k];
        }
      }
      if k: nat :| LosesAt(s', rest, o, k) {
        assert LosesAt(s, run, o, k + 1);
      }
      if k: nat :| LosesAt(s, run, o, k) {
        if k > 0 {
          assert LosesAt(s', rest, o, k - 1);
        }
      }
    }
  }

  // From a shop in step with Redis, for any number of instances: a read that overlaps no order is right unless it
  // did not fall back and its answer lists a menu whose ZCOUNT was null or one of whose orders the run lost.
  lemma ReadRightIffNothingLost(
    s: Sys, run: seq<Step>, i: nat, clock: DateTime, menuIds: seq<MenuId>, answers: seq<Answer>, sql: seq<PopularMenu>)
    requires Inv(s) && InStep(s) && IsRun(s, run) && Final(s, run).out.redisQueue == map[]
    requires SafeWindow(WindowStart(clock), Truncate(clock)) && IsMenuList(menuIds, Final(s, run).shop.menus)
    requires var e := Final(s, run).shop; IsPopularAnswer(sql, e.books.orders, e.menus, Truncate(clock))
    ensures var e := Final(s, run); var reply := ReplyAt(e, i, clock, menuIds, answers);
      ReadMenus(e, i, clock, menuIds, answers, sql) == sql
      <==> reply.None? || (forall m :: m in reply.value ==> reply.value[m] == 0)
           || forall row :: row in sql ==>
                && row.menuId !in AbsentMenus(menuIds, answers)
                && forall o, k: nat ::
                     o in RecentOrders(e.shop.books.orders, row.menuId, Truncate(clock)) ==>
                       !LosesAt(s, run, o, k)
  {
    hide SafeWindow, WindowStart, Truncate, Inv, IsPopularAnswer, IsMenuList, ReadMenus, ReplyAt, LosesAt;
    var e := Final(s, run);
    RedisHoldsOnlyOrders(s, run);
    ReadIsRightIff(e, i, clock, menuIds, answers, sql);
    forall o | o in e.shop.books.orders
      ensures o !in Members(e.out.zsets, e.shop.books.orders[o].menu) <==> exists k: nat :: LosesAt(s, run, o, k)
    {
      LostIff(s, run, o);
    }
  }

  // ----- the stale flag

  // The step sets the flag of instance `i`: a failed ZADD of its listener, or a ZCOUNT of its read that throws.
  predicate SetsFlag(s: Sys, step: Step, i: nat) {
    || (step.Deliver? && step.fault != NoFault && step.order in s.out.redisQueue
        && s.out.redisQueue[step.order].instance == i)
    || (step.Read? && step.instance == i
        && exists k :: 0 <= k < |s.shop.menus| && k < |step.answers| && step.answers[k] == Thrown)
  }

  predicate NoCrash(run: seq<Step>, i: nat, from: nat) {
    forall j :: from <= j < |run| ==> run[j] != Crash(i)
  }

  ghost predicate FlagSetAt(s: Sys, run: seq<Step>, i: nat, k: nat)
    requires IsRun(s, run)
  {
    k < |run| && SetsFlag(StateBefore(s, run, k), run[k], i) && NoCrash(run, i, k + 1)
  }

  lemma StepFlagIff(s: Sys, step: Step, i: nat)
    requires Enabled(s, step)
    ensures i in Next(s, step).out.stale <==> (i in s.out.stale && step != Crash(i)) || SetsFlag(s, step, i)
  {
    if step.Read? {
      ThrowsMeans(step.answers, |s.shop.menus|);
    }
  }

  // Exactly when the flag of an instance is set after a run: it was set and the instance never crashed, or some
  // step set it and the instance has not crashed since.
  lemma {:induction false} StaleIff(s: Sys, run: seq<Step>, i: nat)
    requires IsRun(s, run)
    ensures i in Final(s, run).out.stale
       <==> (i in s.out.stale && NoCrash(run, i, 0)) || exists k: nat :: FlagSetAt(s, run, i, k)
    decreases |run|
  {
    if run != [] {
      hide SetsFlag, Enabled, Next;
      var s', rest := Next(s, run[0]), run[1..];
      StepFlagIff(s, run[0], i);
      StaleIff(s', rest, i);
      assert NoCrash(run, i, 0) <==> run[0] != Crash(i) && NoCrash(rest, i, 0) by {
        assert run == [run[0]] + rest;
      }
      assert NoCrash(run, i, 1) <==> NoCrash(rest, i, 0) by {
        assert forall j :: 1 <= j < |run| ==> run[j] == rest[j - 1];
        assert forall j :: 0 <= j < |rest| ==> rest[j] == run[j + 1];
      }
      assert FlagSetAt(s, run, i, 0) <==> SetsFlag(s, run[0], i) && NoCrash(rest, i, 0);
      forall k: nat ensures FlagSetAt(s, run, i, k + 1) <==> FlagSetAt(s', rest, i, k) {
        assert forall j :: k + 2 <= j < |run| ==> run[j] == rest[j - 1];
        assert forall j :: k + 1 <= j < |rest| ==> rest[j] == run[j + 1];
      }
      if k: nat :| FlagSetAt(s', rest, i, k) {
        assert FlagSetAt(s, run, i, k + 1);
      }
      if k: nat :| FlagSetAt(s, run, i, k) {
        if k > 0 {
          assert FlagSetAt(s', rest, i, k - 1);
        }
      }
    }
  }

  // After a failed ZADD or a thrown ZCOUNT every later read of that instance falls back to the query, whatever
  // Redis would answer, until the instance crashes.
  lemma FallsBackAfterFailure(
    s: Sys, run: seq<Step>, i: nat, k: nat,
    clock: DateTime, menuIds: seq<MenuId>, answers: seq<Answer>, sql: seq<PopularMenu>)
    requires IsRun(s, run) && k < |run| && SetsFlag(StateBefore(s, run, k), run[k], i) && NoCrash(run, i, k + 1)
    requires IsMenuList(menuIds, Final(s, run).shop.menus)
    ensures ReadMenus(Final(s, run), i, clock, menuIds, answers, sql) == sql
  {
    assert FlagSetAt(s, run, i, k);
    StaleIff(s, run, i);
  }

  // ----- the waiting messages

  predicate CommitsOrder(s: Sys, step: Step, o: nat) {
    step.Pay? && step.action.Commit? && step.action.tx < |s.shop.txs|
    && s.shop.txs[step.action.tx].phase.Placed? && s.shop.txs[step.action.tx].phase.orderId == o
  }

  // The commit of an order queues both of its listeners, on the instance of the request and with the row's values.
  lemma CommitQueues(s: Sys, step: Step, o: nat)
    requires Inv(s) && Enabled(s, step) && CommitsOrder(s, step, o)
    ensures var s' := Next(s, step); var i := s.shop.txs[step.action.tx].instance;
      && o in s'.shop.books.orders && o in s'.out.redisQueue && o in s'.out.sendQueue
      && var row := s'.shop.books.orders[o];
         var waiting := Pending(i, OrderPaidEvent(o, row.user, row.menu, row.price, row.createdAt));
         s'.out.redisQueue == s.out.redisQueue[o := waiting] && s'.out.sendQueue == s.out.sendQueue[o := waiting]
  {
    OrdersGrow(s.shop, step.action);
    assert Payments.TxSound(s.shop.books, s.shop.nextHistory, s.shop.nextOrder, s.shop.txs[step.action.tx]);
  }

  // A message stops waiting exactly when its listener runs or the instance that holds it crashes.
  lemma MessageWaitsIff(s: Sys, step: Step, o: nat)
    requires Inv(s) && Enabled(s, step)
    ensures o in Next(s, step).out.sendQueue
       <==> CommitsOrder(s, step, o)
            || (o in s.out.sendQueue && step != Crash(s.out.sendQueue[o].instance)
                && !(step.Send? && step.order == o))
    ensures o in Next(s, step).out.redisQueue
       <==> CommitsOrder(s, step, o)
            || (o in s.out.redisQueue && step != Crash(s.out.redisQueue[o].instance)
                && !(step.Deliver? && step.order == o))
  {
    if step.Pay? && step.action.Commit? {
      assert Payments.TxSound(s.shop.books, s.shop.nextHistory, s.shop.nextOrder, s.shop.txs[step.action.tx]);
    }
  }

  // ----- concrete states

  const MENUS: map<MenuId, Menu> := map[1 := Menu("latte", 5), 2 := Menu("mocha", 5)]

  // One user, orders on the first second of the epoch, and Redis as given.
  function Rested(balance: int, orders: map<nat, OrderRow>, zsets: ZSets): Sys {
    Sys(Payments.State(Books(map[7 := balance], map[], orders), MENUS, 0, 3, map[], []),
        Outbox(map[], map[], zsets, {}, []))
  }

  function OrderOf(menu: MenuId): OrderRow {
    OrderRow(7, menu, 5, Stamp(1, 0))
  }

  const CLOCK: DateTime := Stamp(2, 0)

  lemma ClockIsSafe()
    ensures SafeWindow(WindowStart(CLOCK), Truncate(CLOCK))
    ensures InWindow(Stamp(1, 0), WindowStart(CLOCK), Truncate(CLOCK))
  {
    hide Widen;
    SmallWindowSafe(WindowStart(CLOCK), Truncate(CLOCK));
  }

  // A menu with orders in the window whose stored count is 0 makes the Redis path wrong.
  lemma HiddenMenu(
    s: Sys, i: nat, clock: DateTime, menuIds: seq<MenuId>, answers: seq<Answer>, sql: seq<PopularMenu>, menu: MenuId)
    requires Inv(s) && IsMenuList(menuIds, s.shop.menus) && menu in s.shop.menus && |s.shop.menus.Keys| <= 3
    requires IsPopularAnswer(sql, s.shop.books.orders, s.shop.menus, Truncate(clock))
    requires |RecentOrders(s.shop.books.orders, menu, Truncate(clock))| > 0
    requires var reply := ReplyAt(s, i, clock, menuIds, answers);
      reply.Some? && !AllZero(reply.value) && CountOf(reply.value, menu) == 0
    ensures ReadMenus(s, i, clock, menuIds, answers, sql) != sql
  {
    hide Inv, RecentOrders, Group, WindowStart, Truncate, IsPopularAnswer, IsMenuList;
    QueryIsPopular(s, clock, sql);
    RecentIsGroup(s, clock, menu);
    var row := GroupRow(s.shop.books.orders, s.shop.menus, menu, WindowStart(clock), Truncate(clock));
    FewMenusAllListed(sql, s.shop.books.orders, s.shop.menus, WindowStart(clock), Truncate(clock), row);
    var counts := ReplyAt(s, i, clock, menuIds, answers).value;
    if row in GetFromRedis(menuIds, s.shop.menus, counts) {
      ListedIsCounted(menuIds, s.shop.menus, counts, row);
    }
  }

  function Popular(): Sys {
    var score := Score(Stamp(1, 0));
    Rested(0, map[0 := OrderOf(1), 1 := OrderOf(1), 2 := OrderOf(2)],
           map[1 := map[0 := score, 1 := score], 2 := map[2 := score]])
  }

  lemma RestedInv(balance: int, orders: map<nat, OrderRow>, zsets: ZSets)
    requires 0 <= balance <= LONG_MAX && RedisSound(zsets, orders)
    requires forall o :: o in orders ==> o < 3 && orders[o].createdAt == Stamp(1, 0)
    ensures Inv(Rested(balance, orders, zsets))
  {
    hide Score, RedisSound;
    Payments.InitInv(Rested(balance, orders, zsets).shop);
  }

  lemma PopularMirrors()
    ensures Inv(Popular()) && Mirrors(Popular(), 0)
  {
    hide Score, Inv;
    RestedInv(0, Popular().shop.books.orders, Popular().out.zsets);
  }

  lemma PopularGroups(from: DateTime, to: DateTime)
    requires InWindow(Stamp(1, 0), from, to)
    ensures |Group(Popular().shop.books.orders, 1, from, to)| == 2
    ensures |Group(Popular().shop.books.orders, 2, from, to)| == 1
  {
    hide Score, InWindow;
    assert Group(Popular().shop.books.orders, 1, from, to) == {0, 1};
    assert Group(Popular().shop.books.orders, 2, from, to) == {2};
  }

  // The counts of menus 1 and 2.
  lemma TwoTallies(z: ZSets, answers: seq<Answer>, from: DateTime, to: DateTime)
    ensures Tallies(z, [1, 2], answers, from, to, 2) == map[
      1 := if AnswerAt(answers, 0) == Absent then 0 else ZCount(z, 1, Score(from), HighScore(to)),
      2 := if AnswerAt(answers, 1) == Absent then 0 else ZCount(z, 2, Score(from), HighScore(to))]
  {
    hide ZCount, Score, HighScore;
    assert Tallies(z, [1, 2], answers, from, to, 0) == map[];
    var one := Tallies(z, [1, 2], answers, from, to, 1);
    assert one == map[1 := Tally(z, [1, 2], answers, from, to, 0)];
    assert Tallies(z, [1, 2], answers, from, to, 2) == one[2 := Tally(z, [1, 2], answers, from, to, 1)];
  }

  lemma PopularReply()
    ensures ReplyAt(Popular(), 0, CLOCK, [1, 2], [Absent]) == Some(map[1 := 0, 2 := 1])
  {
    hide Score, HighScore, SafeWindow, InWindow, WindowStart, Truncate, Inv, Mirrors, Group, Popular, Tallies;
    PopularMirrors();
    ClockIsSafe();
    PopularGroups(WindowStart(CLOCK), Truncate(CLOCK));
    PopularShape();
    CountIsGroup(Popular(), 0, 2, WindowStart(CLOCK), Truncate(CLOCK));
    TwoTallies(Popular().out.zsets, [Absent], WindowStart(CLOCK), Truncate(CLOCK));
  }

  lemma PopularShape()
    ensures Popular().shop.menus == MENUS && Popular().out.redisQueue == map[] && Popular().out.stale == {}
    ensures IsMenuList([1, 2], MENUS) && |MENUS.Keys| == 2
  {
    hide Score;
    assert MENUS.Keys == {1, 2};
  }

  // Redis equals the orders and no flag is set, yet a null ZCOUNT for the most popular menu hides it.
  lemma NullReplyHidesMenu() returns (s: Sys, menuIds: seq<MenuId>, answers: seq<Answer>)
    ensures Inv(s) && Mirrors(s, 0) && s.out.redisQueue == map[] && s.out.stale == {}
    ensures SafeWindow(WindowStart(CLOCK), Truncate(CLOCK)) && IsMenuList(menuIds, s.shop.menus)
    ensures |RecentOrders(s.shop.books.orders, 1, Truncate(CLOCK))| == 2
    ensures |RecentOrders(s.shop.books.orders, 2, Truncate(CLOCK))| == 1
    ensures ReplyAt(s, 0, CLOCK, menuIds, answers) == Some(map[1 := 0, 2 := 1])
    ensures forall sql :: IsPopularAnswer(sql, s.shop.books.orders, s.shop.menus, Truncate(CLOCK)) ==>
              ReadMenus(s, 0, CLOCK, menuIds, answers, sql) != sql
  {
    hide Score, HighScore, SafeWindow, InWindow, WindowStart, Truncate, Inv, Mirrors, Group, Popular, IsPopularAnswer;
    hide RecentOrders;
    hide ReplyAt, ReadMenus;
    s, menuIds, answers := Popular(), [1, 2], [Absent];
    PopularMirrors();
    ClockIsSafe();
    PopularGroups(WindowStart(CLOCK), Truncate(CLOCK));
    RecentIsGroup(s, CLOCK, 1);
    RecentIsGroup(s, CLOCK, 2);
    PopularShape();
    PopularReply();
    assert 2 in ReplyAt(s, 0, CLOCK, menuIds, answers).value;
    forall sql | IsPopularAnswer(sql, s.shop.books.orders, s.shop.menus, Truncate(CLOCK))
      ensures ReadMenus(s, 0, CLOCK, menuIds, answers, sql) != sql
    {
      HiddenMenu(s, 0, CLOCK, menuIds, answers, sql, 1);
    }
  }

  // ----- a crash between commit and listener

  function Resting(): Sys {
    Rested(10, map[0 := OrderOf(2)], map[2 := map[0 := Score(Stamp(1, 0))]])
  }

  // The shop while its only transaction, an order of menu 1, is in the given phase.
  function Busy(phase: Payments.Phase, locked: bool, nextHistory: nat, nextOrder: nat): Sys {
    Resting().(shop := Resting().shop.(
      nextHistory := nextHistory, nextOrder := nextOrder,
      owner := if locked then map[7 := 0] else map[],
      txs := [Payments.Tx(0, Request.Order(7, 1), phase)]))
  }

  // After the commit; `waiting` are the listeners still to run.
  function Paid(waiting: map<nat, Pending>): Sys {
    var s := Busy(Payments.Committed(Ordered(3, 7, 1, 5, 5)), false, 1, 4);
    Sys(s.shop.(books := Books(map[7 := 5], map[0 := HistoryRow(7, 5, USE)], map[0 := OrderOf(2), 3 := OrderOf(1)])),
        s.out.(redisQueue := waiting, sendQueue := waiting))
  }

  const WAITING: map<nat, Pending> := map[3 := Pending(0, OrderPaidEvent(3, 7, 1, 5, Stamp(1, 0)))]

  const PAYMENT: seq<Step> :=
    [Pay(Payments.Begin(0, Request.Order(7, 1))), Pay(Payments.Check(0)), Pay(Payments.Lock(0)),
     Pay(Payments.Settle(0)), Pay(Payments.Record(0)), Pay(Payments.Place(0, Stamp(1, 0))), Pay(Payments.Commit(0))]

  // After the first `k` steps of the payment.
  function Stage(k: nat): Sys {
    if k == 0 then Resting()
    else if k == 1 then Busy(Payments.Begun, false, 0, 3)
    else if k == 2 then Busy(Payments.Ready(Some(5)), false, 0, 3)
    else if k == 3 then Busy(Payments.Locked(Some(5), 10), true, 0, 3)
    else if k == 4 then Busy(Payments.Settled(Some(5), 5), true, 0, 3)
    else if k == 5 then Busy(Payments.Recorded(Some(5), 5, 0), true, 1, 3)
    else if k == 6 then Busy(Payments.Placed(Some(5), 5, 0, 3, Stamp(1, 0)), true, 1, 4)
    else Paid(WAITING)
  }

  lemma StageStep(k: nat)
    requires k < 7
    ensures Enabled(Stage(k), PAYMENT[k]) && Next(Stage(k), PAYMENT[k]) == Stage(k + 1)
  {
    hide Stage, Enabled, Next;
    if k == 0 { BeginStage(); } else if k < 5 { MoveStage(k); } else if k == 5 { PlaceStage(); } else { CommitStage(); }
  }

  lemma BeginStage()
    ensures Enabled(Stage(0), PAYMENT[0]) && Next(Stage(0), PAYMENT[0]) == Stage(1)
  {
    hide Score;
  }

  lemma MoveStage(k: nat)
    requires 0 < k < 5
    ensures Enabled(Stage(k), PAYMENT[k]) && Next(Stage(k), PAYMENT[k]) == Stage(k + 1)
  {
    hide Score;
  }

  lemma FirstSecond()
    ensures Truncate(Stamp(1, 0)) == Stamp(1, 0) && Storable(Stamp(1, 0))
  {
  }

  lemma PlaceStage()
    ensures Enabled(Stage(5), PAYMENT[5]) && Next(Stage(5), PAYMENT[5]) == Stage(6)
  {
    hide Score, Truncate, Storable;
    FirstSecond();
    assert PAYMENT[5] == Pay(Payments.Place(0, Stamp(1, 0)));
    assert Payments.Enabled(Stage(5).shop, PAYMENT[5].action);
  }

  lemma CommitStage()
    ensures Enabled(Stage(6), PAYMENT[6]) && Next(Stage(6), PAYMENT[6]) == Stage(7)
  {
    hide Score;
    var s, s' := Stage(6), Next(Stage(6), PAYMENT[6]);
    assert s'.shop.books.balances == map[7 := 5];
    assert s'.shop.books.orders == map[0 := OrderOf(2), 3 := OrderOf(1)];
    assert s'.shop.owner == map[];
    assert s'.out.redisQueue == WAITING && s'.out.sendQueue == WAITING;
  }

  lemma {:induction false} StagesRun(k: nat, rest: seq<Step>)
    requires k <= 7 && IsRun(Paid(WAITING), rest)
    ensures IsRun(Stage(k), PAYMENT[k..] + rest)
    ensures Final(Stage(k), PAYMENT[k..] + rest) == Final(Paid(WAITING), rest)
    decreases 7 - k
  {
    hide Score, Busy, Paid, Resting, Next, Enabled;
    if k == 7 {
      assert PAYMENT[k..] + rest == rest;
    } else {
      StagesRun(k + 1, rest);
      StageStep(k);
      assert (PAYMENT[k..] + rest)[1..] == PAYMENT[k + 1..] + rest;
    }
  }

  // The crash drops both listeners.
  lemma CrashStage()
    ensures Enabled(Paid(WAITING), Crash(0)) && Next(Paid(WAITING), Crash(0)) == Paid(map[])
  {
    hide Score;
    assert Without(WAITING, 0) == map[];
  }

  lemma PaidShape()
    ensures var e := Paid(map[]);
      && e.shop.menus == MENUS && e.shop.books.orders == map[0 := OrderOf(2), 3 := OrderOf(1)]
      && e.out.zsets == map[2 := map[0 := Score(Stamp(1, 0))]] && e.out.stale == {} && e.out.redisQueue == map[]
  {
    hide Score;
  }

  lemma RestingMirrors()
    ensures Inv(Resting()) && Mirrors(Resting(), 0)
    ensures Resting().out.redisQueue == map[] && Resting().out.stale == {}
  {
    hide Score, Inv;
    RestedInv(10, Resting().shop.books.orders, Resting().out.zsets);
  }

  lemma PaidGroups(from: DateTime, to: DateTime)
    requires InWindow(Stamp(1, 0), from, to)
    ensures Group(Paid(map[]).shop.books.orders, 1, from, to) == {3}
    ensures Group(Paid(map[]).shop.books.orders, 2, from, to) == {0}
  {
    hide Score, InWindow, Paid;
    PaidShape();
  }

  lemma PaidReply()
    requires Inv(Paid(map[]))
    ensures ReplyAt(Paid(map[]), 0, CLOCK, [1, 2], []) == Some(map[1 := 0, 2 := 1])
    ensures ZCount(Paid(map[]).out.zsets, 1, Score(WindowStart(CLOCK)), HighScore(Truncate(CLOCK))) == 0
  {
    hide Score, HighScore, SafeWindow, InWindow, WindowStart, Truncate, Inv, Group, Paid, Tallies;
    var e, from, to := Paid(map[]), WindowStart(CLOCK), Truncate(CLOCK);
    PaidShape();
    ClockIsSafe();
    PaidGroups(from, to);
    CountExactIff(e, 2, from, to);
    assert ScoreRange(Members(e.out.zsets, 1), Score(from), HighScore(to)) == {};
    TwoTallies(e.out.zsets, [], from, to);
  }

  // From a shop whose Redis equals its orders: an order of menu 1 commits, its instance dies before the listener
  // runs, and the restarted instance, its flag clear, answers a read without menu 1.
  lemma CrashHidesMenu() returns (s: Sys, run: seq<Step>)
    ensures Inv(s) && Mirrors(s, 0) && s.out.redisQueue == map[] && s.out.stale == {}
    ensures IsRun(s, run) && run == PAYMENT + [Crash(0)]
    ensures var e := Final(s, run);
      && e.out.stale == {} && e.out.redisQueue == map[] && IsMenuList([1, 2], e.shop.menus)
      && ZCount(e.out.zsets, 1, Score(WindowStart(CLOCK)), HighScore(Truncate(CLOCK)))
         < |RecentOrders(e.shop.books.orders, 1, Truncate(CLOCK))|
      && forall sql ::
           IsPopularAnswer(sql, e.shop.books.orders, e.shop.menus, Truncate(CLOCK)) ==>
             ReadMenus(e, 0, CLOCK, [1, 2], [], sql) != sql
  {
    hide Score, HighScore, SafeWindow, InWindow, WindowStart, Truncate, Inv, Mirrors, Group, Paid, IsPopularAnswer;
    hide RecentOrders;
    hide ReplyAt, ReadMenus, Next, Enabled;
    s, run := Resting(), PAYMENT + [Crash(0)];
    var e := Paid(map[]);
    RestingMirrors();
    PaidShape();
    PopularShape();
    CrashStage();
    assert IsRun(Paid(WAITING), [Crash(0)]) && Final(Paid(WAITING), [Crash(0)]) == e;
    StagesRun(0, [Crash(0)]);
    assert PAYMENT[0..] + [Crash(0)] == run;
    RedisHoldsOnlyOrders(s, run);
    ClockIsSafe();
    PaidGroups(WindowStart(CLOCK), Truncate(CLOCK));
    RecentIsGroup(e, CLOCK, 1);
    PaidReply();
    assert 2 in ReplyAt(e, 0, CLOCK, [1, 2], []).value;
    forall sql | IsPopularAnswer(sql, e.shop.books.orders, e.shop.menus, Truncate(CLOCK))
      ensures ReadMenus(e, 0, CLOCK, [1, 2], [], sql) != sql
    {
      HiddenMenu(e, 0, CLOCK, [1, 2], [], sql, 1);
    }
  }
}
