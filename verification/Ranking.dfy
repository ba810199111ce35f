/**
 The popular-menu ranking: what the SQL query promises, and the stream pipeline that
 computes the same list from Redis counts.
 */
module Ranking {
  import opened Wrappers
  import opened Micros
  import opened Ledger

  datatype PopularMenu = PopularMenu(menuId: MenuId, name: string, orderCount: nat)

  // ORDER BY orderCount DESC, menu id ASC
  predicate Before(a: PopularMenu, b: PopularMenu) {
    a.orderCount > b.orderCount || (a.orderCount == b.orderCount && a.menuId < b.menuId)
  }

  predicate Ranked(rows: seq<PopularMenu>) {
    forall i, j :: 0 <= i < j < |rows| ==> Before(rows[i], rows[j])
  }

  // ----- the query

  // WHERE created_at >= from AND created_at < to, GROUP BY menu
  function Group(orders: map<nat, OrderRow>, menu: MenuId, from: DateTime, to: DateTime): set<nat> {
    set o | o in orders && orders[o].menu == menu && InWindow(orders[o].createdAt, from, to)
  }

  function GroupRow(orders: map<nat, OrderRow>, menus: map<MenuId, Menu>, menu: MenuId, from: DateTime, to: DateTime)
    : PopularMenu
    requires menu in menus
  {
    PopularMenu(menu, menus[menu].name, |Group(orders, menu, from, to)|)
  }

  // `row` is one of the query's groups; a menu without orders in the window has none.
  predicate IsGroup(
    row: PopularMenu, orders: map<nat, OrderRow>, menus: map<MenuId, Menu>, from: DateTime, to: DateTime)
  {
    row.menuId in menus && row == GroupRow(orders, menus, row.menuId, from, to) && row.orderCount > 0
  }

  // `answer` lists the first three groups; no group left out ranks above one listed.
  ghost predicate IsSqlAnswer(
    answer: seq<PopularMenu>, orders: map<nat, OrderRow>, menus: map<MenuId, Menu>, from: DateTime, to: DateTime)
  {
    && |answer| <= 3
    && Ranked(answer)
    && (forall i :: 0 <= i < |answer| ==> IsGroup(answer[i], orders, menus, from, to))
    && (forall row :: IsGroup(row, orders, menus, from, to) ==>
          row in answer || (|answer| == 3 && Before(answer[2], row)))
  }

  // The query has at most one answer.
  lemma SqlAnswerUnique(
    a: seq<PopularMenu>, b: seq<PopularMenu>,
    orders: map<nat, OrderRow>, menus: map<MenuId, Menu>, from: DateTime, to: DateTime)
    requires IsSqlAnswer(a, orders, menus, from, to) && IsSqlAnswer(b, orders, menus, from, to)
    ensures a == b
  {
    AnswerPrefix(a, b, orders, menus, from, to, |a|);
    AnswerPrefix(b, a, orders, menus, from, to, |b|);
  }

  lemma {:induction false} AnswerPrefix(
    a: seq<PopularMenu>, b: seq<PopularMenu>,
    orders: map<nat, OrderRow>, menus: map<MenuId, Menu>, from: DateTime, to: DateTime, n: nat)
    requires IsSqlAnswer(a, orders, menus, from, to) && IsSqlAnswer(b, orders, menus, from, to)
    requires n <= |a|
    ensures n <= |b| && a[..n] == b[..n]
    decreases n
  {
    if n > 0 {
      var i := n - 1;
      AnswerPrefix(a, b, orders, menus, from, to, i);
      assert forall k :: 0 <= k < i ==> a[k] == a[..i][k] == b[..i][k] == b[k];
      assert forall k :: 0 <= k < i ==> Before(a[k], a[i]);
      assert IsGroup(a[i], orders, menus, from, to);
      assert i < |b|;
      NotOutranked(a, b, orders, menus, from, to, i);
      NotOutranked(b, a, orders, menus, from, to, i);
      assert a[..n] == a[..i] + [a[i]] && b[..n] == b[..i] + [b[i]];
    }
  }

  // After a shared prefix, the next row of `b` does not rank above the next row of `a`.
  lemma NotOutranked(
    a: seq<PopularMenu>, b: seq<PopularMenu>,
    orders: map<nat, OrderRow>, menus: map<MenuId, Menu>, from: DateTime, to: DateTime, i: nat)
    requires IsSqlAnswer(a, orders, menus, from, to) && IsSqlAnswer(b, orders, menus, from, to)
    requires i < |a| && i < |b| && forall k :: 0 <= k < i ==> a[k] == b[k]
    ensures !Before(b[i], a[i])
  {
    assert IsGroup(b[i], orders, menus, from, to);
    assert forall k :: 0 <= k < i ==> Before(b[k], b[i]);
    assert forall k :: i < k < |a| ==> Before(a[i], a[k]);
  }

  // ----- the query of a read, spelled out

  // The orders of a menu placed less than seven days before `now`, the instant seven days ago included.
  function RecentOrders(orders: map<nat, OrderRow>, menu: MenuId, now: DateTime): set<nat> {
    set o | o in orders && orders[o].menu == menu
            && 0 < ExactMicros(now) - ExactMicros(orders[o].createdAt) <= 604_800_000_000
  }

  // The three menus with the most orders of the last seven days, most orders first and smaller id first among
  // equals; a menu without such an order is never listed.
  ghost predicate IsPopularAnswer(
    answer: seq<PopularMenu>, orders: map<nat, OrderRow>, menus: map<MenuId, Menu>, now: DateTime)
  {
    && |answer| <= 3
    && (forall i, j :: 0 <= i < j < |answer| ==>
          || answer[i].orderCount > answer[j].orderCount
          || (answer[i].orderCount == answer[j].orderCount && answer[i].menuId < answer[j].menuId))
    && (forall i :: 0 <= i < |answer| ==>
          && answer[i].menuId in menus && answer[i].name == menus[answer[i].menuId].name
          && answer[i].orderCount == |RecentOrders(orders, answer[i].menuId, now)| > 0)
    && (forall m :: m in menus && RecentOrders(orders, m, now) != {} ==>
          var count := |RecentOrders(orders, m, now)|;
          || (exists i :: 0 <= i < |answer| && answer[i].menuId == m)
          || (|answer| == 3
              && (answer[2].orderCount > count || (answer[2].orderCount == count && answer[2].menuId < m))))
  }

  // It is the answer of the query over a window that holds the orders of the last seven days.
  lemma PopularIsSqlAnswer(
    answer: seq<PopularMenu>, orders: map<nat, OrderRow>, menus: map<MenuId, Menu>,
    now: DateTime, from: DateTime, to: DateTime)
    requires forall m :: RecentOrders(orders, m, now) == Group(orders, m, from, to)
    ensures IsPopularAnswer(answer, orders, menus, now) <==> IsSqlAnswer(answer, orders, menus, from, to)
  {
    hide RecentOrders, Group;
    if IsPopularAnswer(answer, orders, menus, now) {
      forall row | IsGroup(row, orders, menus, from, to)
        ensures row in answer || (|answer| == 3 && Before(answer[2], row))
      {
        assert RecentOrders(orders, row.menuId, now) == Group(orders, row.menuId, from, to);
        if i :| 0 <= i < |answer| && answer[i].menuId == row.menuId {
          assert answer[i] == row;
        }
      }
    }
    if IsSqlAnswer(answer, orders, menus, from, to) {
      assert forall i :: 0 <= i < |answer| ==> IsGroup(answer[i], orders, menus, from, to);
      assert forall i, j :: 0 <= i < j < |answer| ==> Before(answer[i], answer[j]);
      forall m | m in menus && RecentOrders(orders, m, now) != {}
        ensures (exists i :: 0 <= i < |answer| && answer[i].menuId == m)
                || (|answer| == 3 && Before(answer[2], GroupRow(orders, menus, m, from, to)))
      {
        assert IsGroup(GroupRow(orders, menus, m, from, to), orders, menus, from, to);
      }
    }
  }

  // ----- the pipeline: map, filter, sort, limit

  ghost predicate IsMenuList(menuIds: seq<MenuId>, menus: map<MenuId, Menu>) {
    && (forall i, j :: 0 <= i < j < |menuIds| ==> menuIds[i] < menuIds[j])
    && (forall m :: m in menuIds <==> m in menus)
  }

  function CountOf(counts: map<MenuId, nat>, menu: MenuId): nat {
    if menu in counts then counts[menu] else 0
  }

  // The rows of the first `n` menus with a positive count, in menu order.
  function PositiveRows(menuIds: seq<MenuId>, menus: map<MenuId, Menu>, counts: map<MenuId, nat>, n: nat)
    : seq<PopularMenu>
    requires n <= |menuIds| && forall m :: m in menuIds ==> m in menus
  {
    if n == 0 then []
    else
      var rows := PositiveRows(menuIds, menus, counts, n - 1);
      var m := menuIds[n - 1];
      if CountOf(counts, m) > 0 then rows + [PopularMenu(m, menus[m].name, CountOf(counts, m))] else rows
  }

  function Insert(row: PopularMenu, rows: seq<PopularMenu>): seq<PopularMenu> {
    if rows == [] || Before(row, rows[0]) then [row] + rows else [rows[0]] + Insert(row, rows[1..])
  }

  function Sort(rows: seq<PopularMenu>): seq<PopularMenu> {
    if rows == [] then [] else Insert(rows[|rows| - 1], Sort(rows[..|rows| - 1]))
  }

  function Limit3(rows: seq<PopularMenu>): seq<PopularMenu> {
    if |rows| <= 3 then rows else rows[..3]
  }

  function GetFromRedis(menuIds: seq<MenuId>, menus: map<MenuId, Menu>, counts: map<MenuId, nat>): seq<PopularMenu>
    requires IsMenuList(menuIds, menus)
  {
    Limit3(Sort(PositiveRows(menuIds, menus, counts, |menuIds|)))
  }

  predicate AllZero(counts: map<MenuId, nat>) {
    forall m :: m in counts ==> counts[m] == 0
  }

  // `counts` is the reply of the counter, None its exception; `sql` is the answer of the query.
  function GetPopularMenus(
    menuIds: seq<MenuId>, menus: map<MenuId, Menu>, counts: Option<map<MenuId, nat>>, sql: seq<PopularMenu>)
    : seq<PopularMenu>
    requires IsMenuList(menuIds, menus)
  {
    if counts.None? then sql
    else if AllZero(counts.value) then sql
    else GetFromRedis(menuIds, menus, counts.value)
  }

  predicate DistinctMenus(rows: seq<PopularMenu>) {
    forall i, j :: 0 <= i < j < |rows| ==> rows[i].menuId != rows[j].menuId
  }

  lemma {:induction false} InsertRanked(row: PopularMenu, rows: seq<PopularMenu>)
    requires Ranked(rows) && forall r :: r in rows ==> r.menuId != row.menuId
    ensures Ranked(Insert(row, rows))
    ensures |Insert(row, rows)| == |rows| + 1
    ensures forall r :: r in Insert(row, rows) <==> r == row || r in rows
  {
    if rows == [] || Before(row, rows[0]) {
    } else {
      InsertRanked(row, rows[1..]);
      var tail := Insert(row, rows[1..]);
      assert forall r :: r in rows <==> r == rows[0] || r in rows[1..];
      forall j | 0 <= j < |tail| ensures Before(rows[0], tail[j]) {
        assert tail[j] in tail;
      }
    }
  }

  lemma {:induction false} SortRanked(rows: seq<PopularMenu>)
    requires DistinctMenus(rows)
    ensures Ranked(Sort(rows))
    ensures |Sort(rows)| == |rows|
    ensures forall r :: r in Sort(rows) <==> r in rows
  {
    if rows != [] {
      var n := |rows| - 1;
      SortRanked(rows[..n]);
      InsertRanked(rows[n], Sort(rows[..n]));
      assert forall r :: r in rows <==> r == rows[n] || r in rows[..n];
    }
  }

  lemma {:induction false} PositiveRowsExact(
    menuIds: seq<MenuId>, menus: map<MenuId, Menu>, counts: map<MenuId, nat>, n: nat)
    requires IsMenuList(menuIds, menus) && n <= |menuIds|
    ensures var rows := PositiveRows(menuIds, menus, counts, n);
      && (forall r :: r in rows <==>
            exists k :: 0 <= k < n && CountOf(counts, menuIds[k]) > 0
                        && r == PopularMenu(menuIds[k], menus[menuIds[k]].name, CountOf(counts, menuIds[k])))
      && DistinctMenus(rows)
  {
    if n > 0 {
      PositiveRowsExact(menuIds, menus, counts, n - 1);
      var rows := PositiveRows(menuIds, menus, counts, n - 1);
      forall i | 0 <= i < |rows| ensures rows[i].menuId != menuIds[n - 1] {
        assert rows[i] in rows;
      }
    }
  }

  lemma LimitIsSqlAnswer(
    sorted: seq<PopularMenu>, orders: map<nat, OrderRow>, menus: map<MenuId, Menu>, from: DateTime, to: DateTime)
    requires Ranked(sorted)
    requires forall row :: row in sorted <==> IsGroup(row, orders, menus, from, to)
    ensures IsSqlAnswer(Limit3(sorted), orders, menus, from, to)
  {
    var answer := Limit3(sorted);
    assert forall i :: 0 <= i < |answer| ==> answer[i] == sorted[i];
    forall row | IsGroup(row, orders, menus, from, to)
      ensures row in answer || (|answer| == 3 && Before(answer[2], row))
    {
      var j :| 0 <= j < |sorted| && sorted[j] == row;
      if j < |answer| {
        assert answer[j] == row;
      }
    }
  }

  lemma RowsAreGroups(
    menuIds: seq<MenuId>, menus: map<MenuId, Menu>, counts: map<MenuId, nat>,
    orders: map<nat, OrderRow>, from: DateTime, to: DateTime, row: PopularMenu)
    requires IsMenuList(menuIds, menus)
    requires forall m :: m in menus ==> CountOf(counts, m) == |Group(orders, m, from, to)|
    ensures row in PositiveRows(menuIds, menus, counts, |menuIds|) <==> IsGroup(row, orders, menus, from, to)
  {
    PositiveRowsExact(menuIds, menus, counts, |menuIds|);
    if IsGroup(row, orders, menus, from, to) {
      var k :| 0 <= k < |menuIds| && menuIds[k] == row.menuId;
      assert CountOf(counts, menuIds[k]) > 0;
    }
  }

  // If every count is the size of its group, the pipeline gives the answer of the query.
  lemma PipelineIsSqlAnswer(
    menuIds: seq<MenuId>, menus: map<MenuId, Menu>, counts: map<MenuId, nat>,
    orders: map<nat, OrderRow>, from: DateTime, to: DateTime)
    requires IsMenuList(menuIds, menus)
    requires forall m :: m in menus ==> CountOf(counts, m) == |Group(orders, m, from, to)|
    ensures IsSqlAnswer(GetFromRedis(menuIds, menus, counts), orders, menus, from, to)
  {
    var rows := PositiveRows(menuIds, menus, counts, |menuIds|);
    PositiveRowsExact(menuIds, menus, counts, |menuIds|);
    SortRanked(rows);
    forall row ensures row in Sort(rows) <==> IsGroup(row, orders, menus, from, to) {
      RowsAreGroups(menuIds, menus, counts, orders, from, to, row);
    }
    LimitIsSqlAnswer(Sort(rows), orders, menus, from, to);
  }

  // ----- orders missing from the counts

  lemma SubsetCount<T>(a: set<T>, b: set<T>)
    requires a <= b
    ensures |a| <= |b|
  {
    assert b == a + (b - a);
  }

  lemma SameSize<T>(a: set<T>, b: set<T>)
    requires a <= b && |a| == |b|
    ensures a == b
  {
    assert b == a + (b - a);
  }

  // The rows of `part` are rows of `orders`.
  ghost predicate Part(part: map<nat, OrderRow>, orders: map<nat, OrderRow>) {
    forall o :: o in part ==> o in orders && part[o] == orders[o]
  }

  lemma GroupOfPart(
    part: map<nat, OrderRow>, orders: map<nat, OrderRow>, menu: MenuId, from: DateTime, to: DateTime)
    requires Part(part, orders)
    ensures Group(part, menu, from, to) <= Group(orders, menu, from, to)
    ensures |Group(part, menu, from, to)| <= |Group(orders, menu, from, to)|
    ensures |Group(part, menu, from, to)| == |Group(orders, menu, from, to)| ==>
              Group(part, menu, from, to) == Group(orders, menu, from, to)
  {
    var some, all := Group(part, menu, from, to), Group(orders, menu, from, to);
    SubsetCount(some, all);
    if |some| == |all| {
      SameSize(some, all);
    }
  }

  // A group of some of the orders is listed or outranked in the answer over all of them, if the listed groups
  // are complete.
  lemma PartOutranked(
    sql: seq<PopularMenu>, part: map<nat, OrderRow>, orders: map<nat, OrderRow>, menus: map<MenuId, Menu>,
    from: DateTime, to: DateTime, row: PopularMenu)
    requires IsSqlAnswer(sql, orders, menus, from, to) && Part(part, orders) && IsGroup(row, part, menus, from, to)
    requires forall r :: r in sql ==> Group(part, r.menuId, from, to) == Group(orders, r.menuId, from, to)
    ensures row in sql || (|sql| == 3 && Before(sql[2], row))
  {
    GroupOfPart(part, orders, row.menuId, from, to);
    var full := GroupRow(orders, menus, row.menuId, from, to);
    assert IsGroup(full, orders, menus, from, to);
  }

  // Seeing only some of the orders keeps the answer of the query exactly when every listed group is complete.
  lemma AnswerOverPart(
    sql: seq<PopularMenu>, part: map<nat, OrderRow>, orders: map<nat, OrderRow>, menus: map<MenuId, Menu>,
    from: DateTime, to: DateTime)
    requires IsSqlAnswer(sql, orders, menus, from, to) && Part(part, orders)
    ensures IsSqlAnswer(sql, part, menus, from, to)
       <==> forall row :: row in sql ==> Group(part, row.menuId, from, to) == Group(orders, row.menuId, from, to)
  {
    hide Group, Part;
    if IsSqlAnswer(sql, part, menus, from, to) {
      forall row | row in sql ensures Group(part, row.menuId, from, to) == Group(orders, row.menuId, from, to) {
        assert IsGroup(row, part, menus, from, to) && IsGroup(row, orders, menus, from, to);
        GroupOfPart(part, orders, row.menuId, from, to);
      }
    }
    if forall row :: row in sql ==> Group(part, row.menuId, from, to) == Group(orders, row.menuId, from, to) {
      forall row | IsGroup(row, part, menus, from, to)
        ensures row in sql || (|sql| == 3 && Before(sql[2], row))
      {
        PartOutranked(sql, part, orders, menus, from, to, row);
      }
    }
  }

  // When every count is the size of its group over some of the orders, the service gives the answer of the query
  // exactly when it falls back to the query or every group listed in the answer is complete.
  lemma ServiceOverPart(
    menuIds: seq<MenuId>, menus: map<MenuId, Menu>, counts: Option<map<MenuId, nat>>, sql: seq<PopularMenu>,
    part: map<nat, OrderRow>, orders: map<nat, OrderRow>, from: DateTime, to: DateTime)
    requires IsMenuList(menuIds, menus) && IsSqlAnswer(sql, orders, menus, from, to) && Part(part, orders)
    requires counts.Some? ==> forall m :: m in menus ==> CountOf(counts.value, m) == |Group(part, m, from, to)|
    ensures GetPopularMenus(menuIds, menus, counts, sql) == sql
       <==> counts.None? || AllZero(counts.value)
            || forall row :: row in sql ==> Group(part, row.menuId, from, to) == Group(orders, row.menuId, from, to)
  {
    hide Group, Part, IsSqlAnswer, IsMenuList;
    if counts.Some? && !AllZero(counts.value) {
      var answer := GetFromRedis(menuIds, menus, counts.value);
      PipelineIsSqlAnswer(menuIds, menus, counts.value, part, from, to);
      AnswerOverPart(sql, part, orders, menus, from, to);
      if IsSqlAnswer(sql, part, menus, from, to) {
        SqlAnswerUnique(answer, sql, part, menus, from, to);
      }
    }
  }

  // The whole service: Redis path, all-zero path and exception path alike.
  lemma ServiceAnswers(
    menuIds: seq<MenuId>, menus: map<MenuId, Menu>, counts: Option<map<MenuId, nat>>, sql: seq<PopularMenu>,
    orders: map<nat, OrderRow>, from: DateTime, to: DateTime)
    requires IsMenuList(menuIds, menus) && IsSqlAnswer(sql, orders, menus, from, to)
    requires counts.Some? ==> forall m :: m in menus ==> CountOf(counts.value, m) == |Group(orders, m, from, to)|
    ensures GetPopularMenus(menuIds, menus, counts, sql) == sql
  {
    ServiceOverPart(menuIds, menus, counts, sql, orders, orders, from, to);
  }

  // The Redis path lists only menus with a positive count.
  lemma ListedIsCounted(menuIds: seq<MenuId>, menus: map<MenuId, Menu>, counts: map<MenuId, nat>, row: PopularMenu)
    requires IsMenuList(menuIds, menus) && row in GetFromRedis(menuIds, menus, counts)
    ensures CountOf(counts, row.menuId) > 0
  {
    var rows := PositiveRows(menuIds, menus, counts, |menuIds|);
    PositiveRowsExact(menuIds, menus, counts, |menuIds|);
    SortRanked(rows);
    assert row in Sort(rows);
  }

  // With at most three menus the query lists every group.
  lemma FewMenusAllListed(
    sql: seq<PopularMenu>, orders: map<nat, OrderRow>, menus: map<MenuId, Menu>, from: DateTime, to: DateTime,
    row: PopularMenu)
    requires IsSqlAnswer(sql, orders, menus, from, to) && |menus.Keys| <= 3 && IsGroup(row, orders, menus, from, to)
    ensures row in sql
  {
    if row !in sql {
      assert IsGroup(sql[0], orders, menus, from, to) && IsGroup(sql[1], orders, menus, from, to);
      assert Before(sql[0], sql[1]) && Before(sql[1], sql[2]);
      var four := {sql[0].menuId, sql[1].menuId, sql[2].menuId, row.menuId};
      SubsetCount(four, menus.Keys);
    }
  }
}
