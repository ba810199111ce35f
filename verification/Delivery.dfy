/**
 The payment protocol together with what happens after a commit: the Redis listener, the
 asynchronous send to the data platform, crashes of an instance, and popular-menu reads.
 */
module Delivery {
  import opened Wrappers
  import opened Micros
  import opened Ledger
  import opened RedisCounter
  import Payments
  import opened Ranking

  datatype Pending = Pending(instance: nat, event: OrderPaidEvent)

  datatype Outbox = Outbox(
    redisQueue: map<nat, Pending>,      // order id -> Redis listener still to run
    sendQueue: map<nat, Pending>,       // order id -> data-platform listener still to run
    zsets: ZSets,
    stale: set<nat>,                    // instances whose stale flag is set
    sends: seq<OrderDataMessage>)

  datatype Sys = Sys(shop: Payments.State, out: Outbox)

  datatype Step =
    | Pay(action: Payments.Action)
    | Deliver(order: nat, fault: Fault)
    | Send(order: nat, arrives: bool)
    | Crash(instance: nat)
    | Read(instance: nat, answers: seq<Answer>)

  predicate Enabled(s: Sys, step: Step) {
    match step
    case Pay(a) => Payments.Enabled(s.shop, a)
    case Deliver(order, _) => order in s.out.redisQueue
    case Send(order, _) => order in s.out.sendQueue
    // The database rolls back the open transactions of a dead process first.
    case Crash(i) =>
      forall t :: 0 <= t < |s.shop.txs| && s.shop.txs[t].instance == i ==> Payments.Finished(s.shop.txs[t])
    case Read(_, _) => true
  }

  // What can always happen: any read, a waiting listener, and the crash of an instance without open transactions.
  lemma AlwaysPossible(s: Sys, i: nat, answers: seq<Answer>, order: nat, fault: Fault, arrives: bool)
    ensures Enabled(s, Read(i, answers))
    ensures Enabled(s, Deliver(order, fault)) <==> order in s.out.redisQueue
    ensures Enabled(s, Send(order, arrives)) <==> order in s.out.sendQueue
    ensures Enabled(s, Crash(i)) <==> forall t :: 0 <= t < |s.shop.txs| && s.shop.txs[t].instance == i ==>
              s.shop.txs[t].phase.Committed? || s.shop.txs[t].phase.RolledBack?
  {
  }

  function EventOf(order: nat, row: OrderRow): OrderPaidEvent {
    OrderPaidEvent(order, row.user, row.menu, row.price, row.createdAt)
  }

  // Both listeners are registered by the event published inside the transaction and start at its commit.
  function AfterPay(shop: Payments.State, out: Outbox, a: Payments.Action): Outbox
    requires Payments.Enabled(shop, a)
  {
    if !a.Commit? || shop.txs[a.tx].request.Charge? then out
    else
      var tx := shop.txs[a.tx];
      var d := Payments.DrawsOf(tx);
      var event := OrderPaidEvent(d.orderId, tx.request.user, tx.request.menu, d.price.value, d.orderedAt);
      out.(redisQueue := out.redisQueue[d.orderId := Pending(tx.instance, event)],
           sendQueue := out.sendQueue[d.orderId := Pending(tx.instance, event)])
  }

  function AfterDeliver(out: Outbox, order: nat, fault: Fault): Outbox
    requires order in out.redisQueue
  {
    var Pending(instance, event) := out.redisQueue[order];
    out.(redisQueue := out.redisQueue - {order},
         zsets := AfterRecord(out.zsets, event, fault),
         stale := if fault == NoFault then out.stale else out.stale + {instance})
  }

  function AfterSend(out: Outbox, order: nat, arrives: bool): Outbox
    requires order in out.sendQueue
  {
    out.(sendQueue := out.sendQueue - {order},
         sends := out.sends + if arrives then [MessageOf(out.sendQueue[order].event)] else [])
  }

  // A crash loses the listeners in memory; the restarted process has a clear stale flag.
  function AfterCrash(out: Outbox, instance: nat): Outbox {
    out.(redisQueue := Without(out.redisQueue, instance),
         sendQueue := Without(out.sendQueue, instance),
         stale := out.stale - {instance})
  }

  function Without(queue: map<nat, Pending>, instance: nat): map<nat, Pending> {
    map order | order in queue && queue[order].instance != instance :: queue[order]
  }

  function Next(s: Sys, step: Step): Sys
    requires Enabled(s, step)
  {
    match step
    case Pay(a) => Sys(Payments.Next(s.shop, a), AfterPay(s.shop, s.out, a))
    case Deliver(order, fault) => s.(out := AfterDeliver(s.out, order, fault))
    case Send(order, arrives) => s.(out := AfterSend(s.out, order, arrives))
    case Crash(i) => s.(out := AfterCrash(s.out, i))
    case Read(i, answers) =>
      if Throws(answers, |s.shop.menus|) then s.(out := s.out.(stale := s.out.stale + {i})) else s
  }

  predicate IsRun(s: Sys, run: seq<Step>)
    decreases |run|
  {
    run == [] || (Enabled(s, run[0]) && IsRun(Next(s, run[0]), run[1..]))
  }

  function Final(s: Sys, run: seq<Step>): Sys
    requires IsRun(s, run)
    decreases |run|
  {
    if run == [] then s else Final(Next(s, run[0]), run[1..])
  }

  // ----- listeners, crashes and reads never touch the books

  function PayActions(run: seq<Step>): seq<Payments.Action> {
    if run == [] then []
    else (if run[0].Pay? then [run[0].action] else []) + PayActions(run[1..])
  }

  lemma {:induction false} BooksIgnoreListeners(s: Sys, run: seq<Step>)
    requires IsRun(s, run)
    ensures Payments.IsRun(s.shop, PayActions(run))
    ensures Final(s, run).shop == Payments.Final(s.shop, PayActions(run))
    decreases |run|
  {
    if run != [] {
      BooksIgnoreListeners(Next(s, run[0]), run[1..]);
      if run[0].Pay? {
        assert PayActions(run)[1..] == PayActions(run[1..]);
      } else {
        assert PayActions(run) == PayActions(run[1..]);
      }
    }
  }

  // ----- any number of instances, failures and crashes

  ghost predicate QueueSound(queue: map<nat, Pending>, orders: map<nat, OrderRow>) {
    forall o :: o in queue ==> o in orders && queue[o].event == EventOf(o, orders[o])
  }

  // Redis holds only committed orders, each under its menu and with its score.
  ghost predicate RedisSound(z: ZSets, orders: map<nat, OrderRow>) {
    forall m, o :: m in z && o in z[m] ==>
      o in orders && orders[o].menu == m && z[m][o] == Score(orders[o].createdAt)
  }

  ghost predicate Inv(s: Sys) {
    && Payments.Inv(s.shop)
    && QueueSound(s.out.redisQueue, s.shop.books.orders)
    && QueueSound(s.out.sendQueue, s.shop.books.orders)
    && RedisSound(s.out.zsets, s.shop.books.orders)
  }

  // Paying only adds orders, under ids not used before.
  lemma OrdersGrow(shop: Payments.State, a: Payments.Action)
    requires Payments.Inv(shop) && Payments.Enabled(shop, a)
    ensures var orders := Payments.Next(shop, a).books.orders;
      && (forall o :: o in shop.books.orders ==> o in orders && orders[o] == shop.books.orders[o])
      && (forall o :: o in orders && o !in shop.books.orders ==>
            && a.Commit? && shop.txs[a.tx].request.Order? && o == shop.txs[a.tx].phase.orderId)
      && (a.Commit? && shop.txs[a.tx].request.Order? ==>
            shop.txs[a.tx].phase.orderId in orders && shop.txs[a.tx].phase.orderId !in shop.books.orders)
  {
    if a.Commit? {
      assert Payments.TxSound(shop.books, shop.nextHistory, shop.nextOrder, shop.txs[a.tx]);
    }
  }

  lemma QueuesKept(s: Sys, a: Payments.Action)
    requires Inv(s) && Payments.Enabled(s.shop, a)
    ensures var s' := Next(s, Pay(a));
      QueueSound(s'.out.redisQueue, s'.shop.books.orders) && QueueSound(s'.out.sendQueue, s'.shop.books.orders)
  {
    OrdersGrow(s.shop, a);
  }

  lemma ZAddSound(z: ZSets, orders: map<nat, OrderRow>, o: nat)
    requires RedisSound(z, orders) && o in orders
    ensures RedisSound(ZAdd(z, orders[o].menu, o, Score(orders[o].createdAt)), orders)
  {
  }

  lemma StepInv(s: Sys, step: Step)
    requires Inv(s) && Enabled(s, step)
    ensures Inv(Next(s, step))
  {
    match step
    case Pay(a) =>
      Payments.StepInv(s.shop, a);
      OrdersGrow(s.shop, a);
      QueuesKept(s, a);
    case Deliver(order, _) => ZAddSound(s.out.zsets, s.shop.books.orders, order);
    case _ =>
  }

  lemma {:induction false} RedisHoldsOnlyOrders(s: Sys, run: seq<Step>)
    requires Inv(s) && IsRun(s, run)
    ensures Inv(Final(s, run))
    ensures RedisSound(Final(s, run).out.zsets, Final(s, run).shop.books.orders)
    decreases |run|
  {
    if run != [] {
      StepInv(s, run[0]);
      RedisHoldsOnlyOrders(Next(s, run[0]), run[1..]);
    }
  }

  lemma ScoreRangeInGroup(s: Sys, menu: MenuId, from: DateTime, to: DateTime)
    requires Inv(s) && SafeWindow(from, to)
    ensures ScoreRange(Members(s.out.zsets, menu), Score(from), HighScore(to))
         <= Group(s.shop.books.orders, menu, from, to)
  {
    hide Widen, ToEpochMicros;
    var orders := s.shop.books.orders;
    forall o | o in ScoreRange(Members(s.out.zsets, menu), Score(from), HighScore(to))
      ensures o in Group(orders, menu, from, to)
    {
      assert o in orders && orders[o].menu == menu;
      StorableFits(orders[o].createdAt);
      SafeWindowSelects(orders[o].createdAt, from, to);
    }
  }

  // Whatever fails, a Redis count never exceeds the count of the query.
  lemma RedisNeverOvercounts(s: Sys, run: seq<Step>, menu: MenuId, from: DateTime, to: DateTime)
    requires Inv(s) && IsRun(s, run) && SafeWindow(from, to)
    ensures var e := Final(s, run);
      ZCount(e.out.zsets, menu, Score(from), HighScore(to)) <= |Group(e.shop.books.orders, menu, from, to)|
  {
    var e := Final(s, run);
    RedisHoldsOnlyOrders(s, run);
    ScoreRangeInGroup(e, menu, from, to);
    SubsetCount(ScoreRange(Members(e.out.zsets, menu), Score(from), HighScore(to)),
                Group(e.shop.books.orders, menu, from, to));
  }

  // Exactly when a Redis count is right, whatever failed before: no order of its group is missing.
  lemma CountExactIff(s: Sys, menu: MenuId, from: DateTime, to: DateTime)
    requires Inv(s) && SafeWindow(from, to)
    ensures ZCount(s.out.zsets, menu, Score(from), HighScore(to)) == |Group(s.shop.books.orders, menu, from, to)|
       <==> forall o :: o in Group(s.shop.books.orders, menu, from, to) ==> o in Members(s.out.zsets, menu)
  {
    var orders := s.shop.books.orders;
    var counted := ScoreRange(Members(s.out.zsets, menu), Score(from), HighScore(to));
    var group := Group(orders, menu, from, to);
    ScoreRangeInGroup(s, menu, from, to);
    if |counted| == |group| {
      SameSize(counted, group);
    }
    if forall o :: o in group ==> o in Members(s.out.zsets, menu) {
      forall o | o in group ensures o in counted {
        StorableFits(orders[o].createdAt);
        SafeWindowSelects(orders[o].createdAt, from, to);
      }
      assert counted == group;
    }
  }

  // ----- external sends

  // `ids[i]` is the order of the i-th message: a different committed order for every message.
  ghost predicate SendsMatch(s: Sys, ids: seq<nat>) {
    && |ids| == |s.out.sends|
    && (forall i, j :: 0 <= i < j < |ids| ==> ids[i] != ids[j])
    && (forall i :: 0 <= i < |ids| ==>
          && ids[i] in s.shop.books.orders
          && ids[i] !in s.out.sendQueue
          && var row := s.shop.books.orders[ids[i]];
             s.out.sends[i].user == row.user && s.out.sends[i].menu == row.menu && s.out.sends[i].amount == row.price)
  }

  lemma StepSends(s: Sys, step: Step, ids: seq<nat>) returns (ids': seq<nat>)
    requires Inv(s) && Enabled(s, step) && SendsMatch(s, ids)
    ensures SendsMatch(Next(s, step), ids')
    ensures ids' == ids + if step.Send? && step.arrives then [step.order] else []
  {
    ids' := ids;
    match step
    case Pay(a) => OrdersGrow(s.shop, a);
    case Send(order, arrives) =>
      if arrives {
        ids' := ids + [order];
      }
    case _ =>
  }

  lemma {:induction false} SendsAreOrders(s: Sys, run: seq<Step>, ids: seq<nat>) returns (ids': seq<nat>)
    requires Inv(s) && IsRun(s, run) && SendsMatch(s, ids)
    ensures SendsMatch(Final(s, run), ids')
    ensures ids <= ids'
    ensures forall o :: o in ids' <==> o in ids || Send(o, true) in run
    decreases |run|
  {
    ids' := ids;
    if run != [] {
      StepInv(s, run[0]);
      var first := StepSends(s, run[0], ids);
      ids' := SendsAreOrders(Next(s, run[0]), run[1..], first);
      assert run == [run[0]] + run[1..];
      assert forall o :: o in first <==> o in ids || run[0] == Send(o, true);
    }
  }

  // ----- popular-menu reads, whatever failed before

  // What one popular-menu read returns: the counter's reply, then the service.
  function ReadMenus(
    s: Sys, i: nat, clock: DateTime, menuIds: seq<MenuId>, answers: seq<Answer>, sql: seq<PopularMenu>)
    : seq<PopularMenu>
    requires IsMenuList(menuIds, s.shop.menus)
  {
    GetPopularMenus(menuIds, s.shop.menus, ReplyAt(s, i, clock, menuIds, answers), sql)
  }

  function WindowStart(clock: DateTime): DateTime {
    MinusDays(Truncate(clock), 7)
  }

  // A read counts the seven days before the clock reading, cut to microseconds.
  lemma WindowIsSevenDays(clock: DateTime, t: DateTime)
    requires Aligned(t)
    ensures InWindow(t, WindowStart(clock), Truncate(clock))
       <==> 0 < ExactMicros(Truncate(clock)) - ExactMicros(t) <= 604_800_000_000
  {
    var to := Truncate(clock);
    SevenDaysBack(to);
    ExactMicrosOrder(t, to);
    ExactMicrosOrder(to, t);
    ExactMicrosOrder(t, WindowStart(clock));
    ExactMicrosOrder(WindowStart(clock), t);
  }

  lemma RecentIsGroup(s: Sys, clock: DateTime, menu: MenuId)
    requires Inv(s)
    ensures RecentOrders(s.shop.books.orders, menu, Truncate(clock))
         == Group(s.shop.books.orders, menu, WindowStart(clock), Truncate(clock))
  {
    hide InWindow, WindowStart, Truncate;
    forall o | o in s.shop.books.orders
      ensures InWindow(s.shop.books.orders[o].createdAt, WindowStart(clock), Truncate(clock))
         <==> 0 < ExactMicros(Truncate(clock)) - ExactMicros(s.shop.books.orders[o].createdAt) <= 604_800_000_000
    {
      WindowIsSevenDays(clock, s.shop.books.orders[o].createdAt);
    }
  }

  // The query of a read asks for the orders of the last seven days.
  lemma QueryIsPopular(s: Sys, clock: DateTime, answer: seq<PopularMenu>)
    requires Inv(s)
    ensures IsPopularAnswer(answer, s.shop.books.orders, s.shop.menus, Truncate(clock))
       <==> IsSqlAnswer(answer, s.shop.books.orders, s.shop.menus, WindowStart(clock), Truncate(clock))
  {
    hide *;
    forall m ensures RecentOrders(s.shop.books.orders, m, Truncate(clock))
                  == Group(s.shop.books.orders, m, WindowStart(clock), Truncate(clock))
    {
      RecentIsGroup(s, clock, m);
    }
    PopularIsSqlAnswer(answer, s.shop.books.orders, s.shop.menus, Truncate(clock), WindowStart(clock), Truncate(clock));
  }

  function ReplyAt(s: Sys, i: nat, clock: DateTime, menuIds: seq<MenuId>, answers: seq<Answer>)
    : Option<map<MenuId, nat>>
  {
    CountReply(i in s.out.stale, s.out.zsets, menuIds, answers, WindowStart(clock), Truncate(clock))
  }

  // The orders a read sees: those in Redis, except the ones of menus whose ZCOUNT was answered with null.
  function Visible(s: Sys, hidden: set<MenuId>): map<nat, OrderRow> {
    map o | o in s.shop.books.orders && s.shop.books.orders[o].menu !in hidden
            && o in Members(s.out.zsets, s.shop.books.orders[o].menu) :: s.shop.books.orders[o]
  }

  lemma VisibleGroup(s: Sys, hidden: set<MenuId>, menu: MenuId, from: DateTime, to: DateTime)
    requires Inv(s) && SafeWindow(from, to)
    ensures Group(Visible(s, hidden), menu, from, to)
         == if menu in hidden then {} else ScoreRange(Members(s.out.zsets, menu), Score(from), HighScore(to))
  {
    hide Score, HighScore;
    ScoreRangeIsVisible(s, menu, from, to);
  }

  lemma ScoreRangeIsVisible(s: Sys, menu: MenuId, from: DateTime, to: DateTime)
    requires Inv(s) && SafeWindow(from, to)
    ensures forall o ::
              o in ScoreRange(Members(s.out.zsets, menu), Score(from), HighScore(to))
              <==> o in Group(s.shop.books.orders, menu, from, to) && o in Members(s.out.zsets, menu)
  {
    hide Widen, ToEpochMicros;
    var orders := s.shop.books.orders;
    ScoreRangeInGroup(s, menu, from, to);
    forall o | o in Group(orders, menu, from, to) && o in Members(s.out.zsets, menu)
      ensures o in ScoreRange(Members(s.out.zsets, menu), Score(from), HighScore(to))
    {
      StorableFits(orders[o].createdAt);
      SafeWindowSelects(orders[o].createdAt, from, to);
    }
  }

  // Every stored count is the size of the group the read sees.
  lemma CountsOfReply(s: Sys, i: nat, clock: DateTime, menuIds: seq<MenuId>, answers: seq<Answer>, menu: MenuId)
    requires Inv(s) && SafeWindow(WindowStart(clock), Truncate(clock))
    requires IsMenuList(menuIds, s.shop.menus) && menu in s.shop.menus
    requires ReplyAt(s, i, clock, menuIds, answers).Some?
    ensures CountOf(ReplyAt(s, i, clock, menuIds, answers).value, menu)
         == |Group(Visible(s, AbsentMenus(menuIds, answers)), menu, WindowStart(clock), Truncate(clock))|
  {
    hide Score, HighScore, SafeWindow, WindowStart, Truncate, Inv, Visible, AbsentMenus, Group;
    TalliesExact(s.out.zsets, menuIds, answers, WindowStart(clock), Truncate(clock), |menuIds|);
    var k :| 0 <= k < |menuIds| && menuIds[k] == menu;
    assert menuIds[..|menuIds|] == menuIds;
    VisibleGroup(s, AbsentMenus(menuIds, answers), menu, WindowStart(clock), Truncate(clock));
  }

  // The ZCOUNT of the menu was answered, and Redis holds all its orders of the window.
  ghost predicate FullySeen(s: Sys, clock: DateTime, menuIds: seq<MenuId>, answers: seq<Answer>, menu: MenuId) {
    && menu !in AbsentMenus(menuIds, answers)
    && forall o :: o in RecentOrders(s.shop.books.orders, menu, Truncate(clock)) ==> o in Members(s.out.zsets, menu)
  }

  // Exactly when a read returns the answer of the query, for any number of instances and whatever crashed or failed
  // before: it fell back to the query (flag set, exception, or nothing counted), or every menu of the answer was
  // fully seen.
  lemma ReadIsRightIff(
    s: Sys, i: nat, clock: DateTime, menuIds: seq<MenuId>, answers: seq<Answer>, sql: seq<PopularMenu>)
    requires Inv(s) && SafeWindow(WindowStart(clock), Truncate(clock)) && IsMenuList(menuIds, s.shop.menus)
    requires IsPopularAnswer(sql, s.shop.books.orders, s.shop.menus, Truncate(clock))
    ensures var reply := ReplyAt(s, i, clock, menuIds, answers);
      ReadMenus(s, i, clock, menuIds, answers, sql) == sql
      <==> reply.None? || (forall m :: m in reply.value ==> reply.value[m] == 0)
           || forall row :: row in sql ==> FullySeen(s, clock, menuIds, answers, row.menuId)
  {
    hide SafeWindow, WindowStart, Truncate, Inv, Visible, AbsentMenus, FullySeen, ReplyAt, Group, IsGroup, Part;
    hide IsPopularAnswer, IsSqlAnswer;
    QueryIsPopular(s, clock, sql);
    var reply := ReplyAt(s, i, clock, menuIds, answers);
    var from, to := WindowStart(clock), Truncate(clock);
    var visible := Visible(s, AbsentMenus(menuIds, answers));
    if reply.Some? {
      forall m | m in s.shop.menus ensures CountOf(reply.value, m) == |Group(visible, m, from, to)| {
        CountsOfReply(s, i, clock, menuIds, answers, m);
      }
    }
    VisibleIsPart(s, AbsentMenus(menuIds, answers));
    ServiceOverPart(menuIds, s.shop.menus, reply, sql, visible, s.shop.books.orders, from, to);
    forall row | row in sql
      ensures Group(visible, row.menuId, from, to) == Group(s.shop.books.orders, row.menuId, from, to)
         <==> FullySeen(s, clock, menuIds, answers, row.menuId)
    {
      ListedGroupNotEmpty(sql, s.shop.books.orders, s.shop.menus, from, to, row);
      CompleteIffSeen(s, clock, menuIds, answers, row.menuId);
    }
  }

  lemma VisibleIsPart(s: Sys, hidden: set<MenuId>)
    ensures Part(Visible(s, hidden), s.shop.books.orders)
  {
  }

  lemma ListedGroupNotEmpty(
    sql: seq<PopularMenu>, orders: map<nat, OrderRow>, menus: map<MenuId, Menu>, from: DateTime, to: DateTime,
    row: PopularMenu)
    requires IsSqlAnswer(sql, orders, menus, from, to) && row in sql
    ensures Group(orders, row.menuId, from, to) != {}
  {
    hide Group;
    assert IsGroup(row, orders, menus, from, to);
  }

  lemma CompleteIffSeen(s: Sys, clock: DateTime, menuIds: seq<MenuId>, answers: seq<Answer>, menu: MenuId)
    requires Inv(s) && Group(s.shop.books.orders, menu, WindowStart(clock), Truncate(clock)) != {}
    ensures Group(Visible(s, AbsentMenus(menuIds, answers)), menu, WindowStart(clock), Truncate(clock))
         == Group(s.shop.books.orders, menu, WindowStart(clock), Truncate(clock))
       <==> FullySeen(s, clock, menuIds, answers, menu)
  {
    hide AbsentMenus, WindowStart, Truncate, InWindow, Inv, RecentOrders;
    RecentIsGroup(s, clock, menu);
    var all := Group(s.shop.books.orders, menu, WindowStart(clock), Truncate(clock));
    var seen := Group(Visible(s, AbsentMenus(menuIds, answers)), menu, WindowStart(clock), Truncate(clock));
    assert forall o :: o in seen <==>
      o in all && menu !in AbsentMenus(menuIds, answers) && o in Members(s.out.zsets, menu);
  }

  // ----- one instance, no crash: the read model agrees with the query

  predicate OneInstance(run: seq<Step>, i: nat) {
    forall k :: 0 <= k < |run| ==>
      && !run[k].Crash?
      && (run[k].Pay? && run[k].action.Begin? ==> run[k].action.instance == i)
  }

  // Not stale: Redis holds exactly the orders whose listener has run.
  ghost predicate Mirrors(s: Sys, i: nat) {
    && (forall t :: 0 <= t < |s.shop.txs| ==> s.shop.txs[t].instance == i)
    && (forall o :: o in s.out.redisQueue ==> s.out.redisQueue[o].instance == i)
    && (i !in s.out.stale ==>
          forall o :: o in s.shop.books.orders && o !in s.out.redisQueue ==>
            o in Members(s.out.zsets, s.shop.books.orders[o].menu))
  }

  lemma PayMirrors(s: Sys, a: Payments.Action, i: nat)
    requires Inv(s) && Payments.Enabled(s.shop, a) && Mirrors(s, i) && (a.Begin? ==> a.instance == i)
    ensures Mirrors(Next(s, Pay(a)), i)
  {
    OrdersGrow(s.shop, a);
    InstancesKept(s.shop, a, i);
  }

  lemma InstancesKept(shop: Payments.State, a: Payments.Action, i: nat)
    requires Payments.Enabled(shop, a) && (a.Begin? ==> a.instance == i)
    requires forall t :: 0 <= t < |shop.txs| ==> shop.txs[t].instance == i
    ensures forall t :: 0 <= t < |Payments.Next(shop, a).txs| ==> Payments.Next(shop, a).txs[t].instance == i
  {
  }

  lemma DeliverMirrors(s: Sys, order: nat, fault: Fault, i: nat)
    requires Inv(s) && order in s.out.redisQueue && Mirrors(s, i)
    ensures Mirrors(Next(s, Deliver(order, fault)), i)
  {
    var row := s.shop.books.orders[order];
    assert s.out.redisQueue[order].event == EventOf(order, row);
  }

  lemma StepMirrors(s: Sys, step: Step, i: nat)
    requires Inv(s) && Enabled(s, step) && Mirrors(s, i) && OneInstance([step], i)
    ensures Mirrors(Next(s, step), i)
  {
    assert [step][0] == step;
    match step
    case Pay(a) => PayMirrors(s, a, i);
    case Deliver(order, fault) => DeliverMirrors(s, order, fault, i);
    case _ =>
  }

  lemma {:induction false} RunMirrors(s: Sys, run: seq<Step>, i: nat)
    requires Inv(s) && IsRun(s, run) && Mirrors(s, i) && OneInstance(run, i)
    ensures Inv(Final(s, run)) && Mirrors(Final(s, run), i)
    decreases |run|
  {
    if run != [] {
      assert OneInstance([run[0]], i) && OneInstance(run[1..], i);
      StepInv(s, run[0]);
      StepMirrors(s, run[0], i);
      RunMirrors(Next(s, run[0]), run[1..], i);
    }
  }

  lemma CountIsGroup(s: Sys, i: nat, menu: MenuId, from: DateTime, to: DateTime)
    requires Inv(s) && Mirrors(s, i) && i !in s.out.stale && s.out.redisQueue == map[] && SafeWindow(from, to)
    ensures ZCount(s.out.zsets, menu, Score(from), HighScore(to)) == |Group(s.shop.books.orders, menu, from, to)|
  {
    CountExactIff(s, menu, from, to);
  }

  // For one instance without crash, after any run that started with Redis equal to the orders: a read that overlaps
  // no order is right unless it did not fall back and a menu of the answer had its ZCOUNT answered with null.
  lemma ReadsAgreeWithSql(
    s: Sys, run: seq<Step>, i: nat, clock: DateTime, menuIds: seq<MenuId>, answers: seq<Answer>, sql: seq<PopularMenu>)
    requires Inv(s) && Mirrors(s, i) && IsRun(s, run) && OneInstance(run, i)
    requires Final(s, run).out.redisQueue == map[]
    requires SafeWindow(WindowStart(clock), Truncate(clock))
    requires IsMenuList(menuIds, Final(s, run).shop.menus)
    requires var e := Final(s, run).shop; IsPopularAnswer(sql, e.books.orders, e.menus, Truncate(clock))
    ensures var e := Final(s, run); var reply := ReplyAt(e, i, clock, menuIds, answers);
      ReadMenus(e, i, clock, menuIds, answers, sql) == sql
      <==> reply.None? || (forall m :: m in reply.value ==> reply.value[m] == 0)
           || forall row :: row in sql ==> row.menuId !in AbsentMenus(menuIds, answers)
    ensures Absent !in answers ==> ReadMenus(Final(s, run), i, clock, menuIds, answers, sql) == sql
  {
    hide SafeWindow, WindowStart, Truncate, Inv, IsPopularAnswer, IsMenuList, ReadMenus;
    var e := Final(s, run);
    RunMirrors(s, run, i);
    ReadIsRightIff(e, i, clock, menuIds, answers, sql);
    if ReplyAt(e, i, clock, menuIds, answers).Some? {
      forall row | row in sql
        ensures FullySeen(e, clock, menuIds, answers, row.menuId) <==> row.menuId !in AbsentMenus(menuIds, answers)
      {
        assert forall o :: o in e.shop.books.orders ==> o in Members(e.out.zsets, e.shop.books.orders[o].menu);
      }
    }
  }
}
