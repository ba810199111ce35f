# Coffee shop: verified model

This project models the parts of the coffee-shop backend and of its change harness that carry
hard guarantees, and proves those guarantees for all inputs, all runs and all environments.

* **Payments** (`Ledger`, `Payments`, `Serializability`, `Answers`, `Audit`, `Progress`). Charges and orders
  run as transactions interleaved statement by statement against one database: menu read, locking
  read of the user row, balance change, history insert, order insert, commit or rollback. A run is
  a sequence of actions; menu prices may change between any two of them. `Ledger.Serial` says what
  one request does when it runs alone, and the services, modelled statement by statement as
  classes, are proved equal to it. The committed books of every run are a replay of the decided
  requests; business refusals (insufficient points, overflow, unknown user or menu) are part of
  that replay and get the same answer.
* **Read model** (`Micros`, `RedisCounter`, `Ranking`, `Delivery`, `Gaps`). After-commit listeners, the
  sticky stale flag, crashes and popular-menu reads are further steps of the same system. The SQL
  query is stated declaratively (`Ranking.IsSqlAnswer`) and has one answer; the Redis pipeline must
  give that answer.
* **Harness** (`Text`, `PathPatterns`, `NameStatus`, `GitPaths`, `Risks`, `Checks`, `Names`,
  `PlanLock`, `Observations`, `Harness`). `prepare` and `evaluate` look at a changing environment many times. Every look is an
  arbitrary observation: a value, a violation with a state other than PASS (the harness's own code raises no
  other), or another exception. The check runner and the preflight are arbitrary: they may raise any violation.
* **Architecture oracle** (`Cycles`, `Architecture`) and **publishing** (`Publish`), the latter as
  the trace of commands it issues to an arbitrary runner.

Check it with `dafny verify dfyconfig.toml`.

## Results worth knowing

* The design note on popular menus (`docs/strategy.md`, section 5.4) promises exact microsecond windows. Scores
  become `double`s, so this holds if and only if the doubles next to both window ends differ
  (`Micros.WindowExactIff`). It holds for every window within 2^53 microseconds of the epoch, that is until June
  2255, and fails for storable windows after that (`Micros.LateWindowMiscounts`).
* The same note says that a Redis failure makes the current request fall back to the query. The code goes
  further: the flag is sticky, so every later read of that process falls back too. The model follows the code.
* For one instance without crash `Delivery.ReadsAgreeWithSql` says exactly when a read equals the query. A null
  reply to a ZCOUNT is stored as 0 and sets no flag, so a menu that belongs into the answer can vanish from it
  (`Gaps.NullReplyHidesMenu`).
* With several instances or a crash the read model can undercount: an update lost by a crash, or by a failed
  ZADD of another instance, is never made good (`Gaps.LostForever`, `Gaps.UndercountIsForever`).
  `Gaps.CrashHidesMenu` is a complete run from payment to wrong ranking. `Delivery.CountExactIff` says exactly
  when a count is right, `Delivery.ReadIsRightIff` exactly when a read is, and `Gaps.LostIff` exactly which
  steps lose an update. In a safe window a count is never too high (`Delivery.RedisNeverOvercounts`).
* Check ids from the risk policy may contain control characters or name an environment check. As long as no
  declared risk asks for such an id it changes nothing. A declared risk that does rules out PASS: for every
  runner that raises no violation with state PASS if the id is malformed (`Harness.MalformedIdNeverPasses`), for
  the built-in runner if it is an environment check (`Harness.EnvironmentIdNeverPasses`).
  `Checks.BuiltInRunnerAccepted` and `Harness.BuiltInRunnerCompleteIff` are the exact conditions.
* The handlers of `evaluate` and `prepare` take over the state of any violation they catch. No violation of the
  harness's own code has the state PASS, but the check runner and the preflight are arguments of these
  functions. A runner that raises a violation with state PASS makes `evaluate` say PASS with no check result but
  the one the violation names, and such a preflight makes `prepare` say PASS without writing a lock
  (`Harness.RaisedPassPasses`, `Harness.RaisedPassPrepares`). `Script.Evaluate` and `Preparation.Prepare` state
  both verdicts exactly; without such a violation PASS means that everything lines up
  (`Harness.PassesIffLinesUp`). The built-in runner and preflight never raise one.
* A package of the application below `external` is taken for a foreign one by the architecture oracle, so
  imports of it add no edge and break no rule (`Architecture.ExternalIsForeign`).
* The checks of the plan lock for blanks and control characters refuse nothing that the patterns do not refuse
  (`PlanLock.LoadedIff`).

## Modelling choices

* Sorted tuples without duplicates are sets, except where their order is used (`Risks.RequiredCheckIds`,
  the visiting order of `Cycles`).
* Byte streams from git are strings; paths are compared undecoded, which is one-to-one.
* Auto-increment ids, menu prices, clock readings, Redis faults and command results are choices of the environment.
* Widening a `long` to a `double` follows section 5.1.2 of the Java Language Specification: round to nearest, ties to even.
* An order time outside the MySQL `DATETIME` range makes the insert fail (`INSERT_REJECTED`), which is a rollback.
* Reason texts, commands and durations of check results are left out; whether they are well formed is kept.

## Model

| member | source | states |
|---|---|---|
| `Ledger.User.Charge` | src/main/java/com/example/coffee/domain/user/entity/User.java:30-32 | the charge succeeds exactly when the sum fits a `long`, adds exactly the amount, and otherwise leaves the balance alone |
| `Ledger.User.Use` | src/main/java/com/example/coffee/domain/user/entity/User.java:34-42 | succeeds exactly for 0 < amount <= balance and takes the amount off; each refusal exactly under its condition, keeping the balance; a non-negative balance stays non-negative |
| `Ledger.OrderService.Order` | src/main/java/com/example/coffee/domain/order/service/OrderService.java:50-69 | executed alone: each of the five refusals exactly under its condition, with books and events left alone; a success takes the menu price from the balance, inserts one history row and one order with the drawn ids, answers them with the new balance, and publishes one event; always the books and the answer of the serial reference |
| `Ledger.PointService.Charge` | src/main/java/com/example/coffee/domain/point/service/PointService.java:24-41 | executed alone: each of the three refusals exactly under its condition; a success adds the amount to the balance, inserts one history row, and answers the balance the books then hold; always the books and the answer of the serial reference |
| `Payments.StepInv` | src/main/java/com/example/coffee/domain/order/service/OrderService.java:50-69 | every statement of every transaction keeps lock ownership consistent, in-flight knowledge true, drawn ids distinct and balances in 0..2^63-1 |
| `Payments.RunInv` | src/main/java/com/example/coffee/domain/user/repository/UserRepository.java:14-16 | the invariant holds after every interleaving, with rollbacks anywhere |
| `Payments.LocksKept` | src/main/java/com/example/coffee/domain/user/repository/UserRepository.java:14-16 | a row lock has one owner, its owner is the transaction that holds it, and it is released at commit or rollback |
| `Payments.TxKept` | src/main/java/com/example/coffee/domain/user/repository/UserRepository.java:14-16 | what a lock holder read and computed stays true of the committed rows until it ends, because no other transaction can commit for the same user |
| `Payments.InitInv` | src/main/java/com/example/coffee/domain/order/service/OrderService.java:50-69 | a shop at rest, with any users, menus and old rows, satisfies the invariant |
| `Payments.AlwaysPossible` | src/main/java/com/example/coffee/domain/order/service/OrderService.java:50-69 | a request can begin, menus can change without losing a row, and an open transaction can roll back, in every state |
| `Serializability.StepSerial` | src/main/java/com/example/coffee/domain/order/service/OrderService.java:50-69 | one step changes the committed books exactly as the serial reference does for the request it decides, with the same answer |
| `Serializability.Serializable` | src/main/java/com/example/coffee/domain/order/service/OrderService.java:50-69 | replaying the decided requests one at a time in order, each with the price, ids and clock it drew, gives the final books and the answer of every committed and every refused request |
| `Serializability.CommittedIsLogged` | src/main/java/com/example/coffee/domain/point/service/PointService.java:40 | the response of every committed transaction is the outcome logged for it |
| `Serializability.RefusedIsLogged` | src/main/java/com/example/coffee/domain/order/service/OrderService.java:50-59 | a request refused by a business rule is logged with the error that leaves the method |
| `Serializability.LoggedIsCommitted` | src/main/java/com/example/coffee/domain/order/service/OrderService.java:68 | every logged success is the response of a committed transaction; a refused or rolled-back one is never logged as a success |
| `Serializability.LoggedOnce` | src/main/java/com/example/coffee/domain/order/service/OrderService.java:50 | no request is logged twice |
| `Serializability.RealTimeOrder` | src/main/java/com/example/coffee/domain/order/service/OrderService.java:50-69 | a request decided before another one begins comes before it in the serial order (strict serializability) |
| `Answers.ChargeAnswersNewBalance` | src/main/java/com/example/coffee/domain/point/service/PointService.java:24-41 | in every reachable state, committing a charge adds its amount to the balance and one row to the history, and answers the balance the books then hold |
| `Answers.OrderAnswersNewBalance` | src/main/java/com/example/coffee/domain/order/service/OrderService.java:50-69 | in every reachable state, committing an order takes its price off the balance, adds one history row and one order, and answers the id, menu and price of that order and the balance the books then hold |
| `Answers.RefusedIff` | src/main/java/com/example/coffee/domain/order/service/OrderService.java:50-59 | each refusal is made exactly under its condition on the menus and the committed books of that moment |
| `Answers.PriceWasListed` | src/main/java/com/example/coffee/domain/order/service/OrderService.java:52-56 | the price an order works with and answers is the one its menu had when the menu row was read |
| `Answers.TimeWasRead` | src/main/java/com/example/coffee/domain/order/service/OrderService.java:60-63 | the time of an order is the clock reading of its own insert, cut to microseconds |
| `Answers.LockLifetime` | src/main/java/com/example/coffee/domain/user/repository/UserRepository.java:14-16 | a row lock is taken by the locking read of its owner and released exactly by the commit or rollback of that owner |
| `Audit.HistoryExplainsBalances` | src/main/java/com/example/coffee/domain/point/repository/PointHistoryRepository.java:10 | in every reachable state, folding a user's committed rows in id order stays in 0..2^63-1 at every prefix and ends at the committed balance, gaps included |
| `Audit.EmptyHistoryExplained` | src/main/java/com/example/coffee/domain/point/repository/PointHistoryRepository.java:10 | a shop without history is explained by its own balances, so the result starts from every such shop |
| `Audit.FoldInsert` | src/main/java/com/example/coffee/domain/point/entity/PointHistory.java:22-24 | inserting the newest row of a user moves exactly the later prefixes of that user by that row |
| `Audit.PointsConserved` | src/test/java/com/example/coffee/domain/concurrency/CrossDomainConcurrencyIntegrationTest.java:140-150 | from every reachable state, what a run adds to a balance is what it adds to the CHARGE rows less what it adds to the USE rows, and the balance lies in 0..2^63-1 |
| `Audit.OrdersMatchUses` | src/test/java/com/example/coffee/domain/concurrency/CrossDomainConcurrencyIntegrationTest.java:143-148 | committed orders and committed USE rows are in bijection, with equal user and amount equal to price |
| `Audit.IdOrderIsCommitOrder` | src/main/java/com/example/coffee/domain/point/entity/PointHistory.java:22-24 | for one user, history ids increase in commit order although they are drawn before the commit |
| `Audit.HistoryGrows` | src/main/java/com/example/coffee/domain/point/entity/PointHistory.java:22-24 | no step changes or removes a committed history row |
| `Progress.NoDeadlock` | src/main/java/com/example/coffee/domain/user/repository/UserRepository.java:14-16 | a wait-for path has at most one edge and never closes; a transaction owns at most one row |
| `Progress.SomeoneCanStep` | src/main/java/com/example/coffee/domain/user/repository/UserRepository.java:14-16 | if a transaction is unfinished, it or the owner of the row it waits for can execute its next statement |
| `Progress.EveryRequestCanFinish` | src/main/java/com/example/coffee/domain/order/service/OrderService.java:52-68 | from every reachable state a schedule of next statements ends every open request, rolling back only requests that already failed |
| `Progress.RunsAreBounded` | src/main/java/com/example/coffee/domain/point/service/PointService.java:26-40 | no schedule executes more than six statements per request |
| `RedisCounter.PopularMenuRedisCounter.Record` | src/main/java/com/example/coffee/infra/redis/PopularMenuRedisCounter.java:30-41 | adds the order under its menu with its score unless the write is lost, and sets the sticky flag on every exception |
| `RedisCounter.PopularMenuRedisCounter.CountByMenuIds` | src/main/java/com/example/coffee/infra/redis/PopularMenuRedisCounter.java:44-64 | throws exactly when the flag is set or some ZCOUNT throws, setting the flag; otherwise the stored map is the reference map |
| `RedisCounter.TalliesExact` | src/main/java/com/example/coffee/infra/redis/PopularMenuRedisCounter.java:52-57 | for distinct menus the map holds exactly the ZCOUNT of each menu, and 0 where the reply was null |
| `RedisCounter.PopularMenuRedisEventListener.RecordAfterCommit` | src/main/java/com/example/coffee/infra/redis/PopularMenuRedisEventListener.java:23-30 | applies the update and never lets a failure out |
| `RedisCounter.OrderDataPlatformEventListener.SendAfterCommit` | src/main/java/com/example/coffee/infra/dataplatform/OrderDataPlatformEventListener.java:25-37 | sends at most one message, with the user, menu and amount of the event, and never lets a failure out |
| `Micros.EpochMicrosAre` | src/main/java/com/example/coffee/infra/redis/PopularMenuRedisCounter.java:70-73 | `toEpochMicros` is a million times the second plus the whole microseconds of the second |
| `Micros.Truncate` | src/main/java/com/example/coffee/domain/order/service/OrderService.java:60-63 | the latest whole microsecond not after the instant, before the epoch included |
| `Micros.StorableYears` | src/main/resources/db/migration/V5__align_order_created_at_precision.sql:6 | the storable times are those of the years 1000 to 9999 of the Gregorian calendar |
| `Micros.SevenDaysBack` | src/main/java/com/example/coffee/domain/ranking/service/PopularMenuService.java:49 | `to.minusDays(7)` is exactly seven times 24 hours of microseconds earlier |
| `Micros.EpochMicrosMonotone` | src/main/java/com/example/coffee/infra/redis/PopularMenuRedisCounter.java:70-73 | `toEpochMicros` is strictly monotone and injective on microsecond times that fit a `long` |
| `Micros.UnalignedTimesCollide` | src/main/java/com/example/coffee/infra/redis/PopularMenuRedisCounter.java:70-73 | without the cut to microseconds two different times share a score |
| `Micros.WidenMonotone` | src/main/java/com/example/coffee/infra/redis/PopularMenuRedisCounter.java:32-36 | long-to-double widening (round to 53 bits, ties to even) is monotone for all integers |
| `Micros.WidenRounds` | src/main/java/com/example/coffee/infra/redis/PopularMenuRedisCounter.java:32-36 | widening a long gives a double; no double is nearer, and of two equally near ones it is the even one |
| `Micros.ScoreIsMicros` | src/main/java/com/example/coffee/infra/redis/PopularMenuRedisCounter.java:32-36 | within 2^53 microseconds of the epoch a score is the number of microseconds, and the upper bound of a range is one less |
| `Micros.SafeWindowSelects` | src/main/java/com/example/coffee/infra/redis/PopularMenuRedisCounter.java:50-55 | in a window whose ends are separated doubles, the closed score range selects exactly the orders in [from, to) |
| `Micros.SmallWindowSafe` | src/main/java/com/example/coffee/domain/ranking/service/PopularMenuService.java:45-49 | every window whose ends are within 2^53 microseconds of the epoch is such a window |
| `Micros.WindowExactIff` | src/main/java/com/example/coffee/infra/redis/PopularMenuRedisCounter.java:50-55 | the selection is right for every time if and only if the doubles next to both ends differ |
| `Micros.LateWindowMiscounts` | src/main/java/com/example/coffee/infra/redis/PopularMenuRedisCounter.java:50-55 | a storable seven-day window past 2^53 microseconds, and a storable order time one microsecond before it that is counted |
| `Ranking.SqlAnswerUnique` | src/main/java/com/example/coffee/domain/order/repository/OrderRepository.java:15-24 | the query has at most one answer, ties included |
| `Ranking.PopularIsSqlAnswer` | src/main/java/com/example/coffee/domain/order/repository/OrderRepository.java:15-24 | the answer of the query, spelled out: at most three menus, each with its name and its positive number of orders of the last 604,800,000,000 microseconds, more orders first, then smaller id, and nothing left out that ranks higher |
| `Ranking.SortRanked` | src/main/java/com/example/coffee/domain/ranking/service/PopularMenuService.java:80-81 | sorting gives the strict rank order and keeps exactly the rows |
| `Ranking.PipelineIsSqlAnswer` | src/main/java/com/example/coffee/domain/ranking/service/PopularMenuService.java:73-83 | if every count is the size of its group, map-filter-sort-limit gives the answer of the query |
| `Ranking.ServiceAnswers` | src/main/java/com/example/coffee/domain/ranking/service/PopularMenuService.java:51-84 | with right counts the service returns the answer of the query on the Redis, the all-zero and the exception path |
| `Ranking.AnswerOverPart` | src/main/java/com/example/coffee/domain/ranking/service/PopularMenuService.java:73-83 | seeing only some of the orders keeps the answer of the query if and only if every listed group is complete |
| `Ranking.ServiceOverPart` | src/main/java/com/example/coffee/domain/ranking/service/PopularMenuService.java:51-84 | when every count is the size of its group over some of the orders, the service returns the answer of the query if and only if it falls back or every listed group is complete |
| `Delivery.BooksIgnoreListeners` | src/main/java/com/example/coffee/domain/order/service/OrderService.java:66 | listeners, crashes and reads change no balance, history row, order, lock or transaction: the shop evolves by its payment steps alone |
| `Delivery.StepInv` | src/main/java/com/example/coffee/infra/redis/PopularMenuRedisEventListener.java:23-30 | every step keeps the listener queues and Redis inside the committed orders |
| `Delivery.RedisHoldsOnlyOrders` | src/main/java/com/example/coffee/infra/redis/PopularMenuRedisEventListener.java:23-30 | for any number of instances, failures and crashes Redis holds only committed orders, under the right menu and score |
| `Delivery.RedisNeverOvercounts` | src/main/java/com/example/coffee/infra/redis/PopularMenuRedisCounter.java:54-57 | in a window with separated ends a Redis count never exceeds the count of the query, whatever fails |
| `Delivery.CountExactIff` | src/main/java/com/example/coffee/infra/redis/PopularMenuRedisCounter.java:54-57 | in such a window a Redis count equals the count of the query if and only if no order of the group is missing from Redis |
| `Delivery.WindowIsSevenDays` | src/main/java/com/example/coffee/domain/ranking/service/PopularMenuService.java:45-49 | the window of a read holds exactly the times more than 0 and at most 604,800,000,000 microseconds before the clock reading cut to microseconds |
| `Delivery.SendsAreOrders` | src/main/java/com/example/coffee/infra/dataplatform/OrderDataPlatformEventListener.java:25-37 | external messages map injectively to committed orders, each with the user, menu and price of its order row, and a message was sent exactly for each arriving send of the run |
| `Delivery.RunMirrors` | src/main/java/com/example/coffee/infra/redis/PopularMenuRedisCounter.java:37-40 | one instance without crash: while not stale, Redis holds every committed order whose listener has run |
| `Delivery.ReadIsRightIff` | src/main/java/com/example/coffee/domain/ranking/service/PopularMenuService.java:43-90 | for any number of instances and whatever crashed or failed before, a read returns the three menus with the most orders of the last seven days if and only if it falls back (flag, exception, or only zero counts) or every menu of that answer had its ZCOUNT answered and all its orders of the seven days are in Redis |
| `Delivery.ReadsAgreeWithSql` | src/main/java/com/example/coffee/domain/ranking/service/PopularMenuService.java:43-90 | after any such run a read that overlaps no order returns that answer if and only if it falls back or no menu of the answer had a null ZCOUNT; without null replies it always does |
| `Gaps.NullReplyHidesMenu` | src/main/java/com/example/coffee/infra/redis/PopularMenuRedisCounter.java:54-56 | a state with Redis equal to the orders and no flag set in which one null ZCOUNT makes the read differ from the query |
| `Gaps.CrashLoses` | src/main/java/com/example/coffee/infra/redis/PopularMenuRedisEventListener.java:23-30 | a crash before the listener of a committed order has run loses its update and leaves the flag of the restarted instance clear |
| `Gaps.LostUpdateLoses` | src/main/java/com/example/coffee/infra/redis/PopularMenuRedisCounter.java:29-40 | a failed ZADD loses its update and sets the flag of its own instance only |
| `Gaps.LostForever` | src/main/java/com/example/coffee/infra/redis/PopularMenuRedisCounter.java:29-40 | a lost update stays lost in every run |
| `Gaps.LostIff` | src/main/java/com/example/coffee/infra/redis/PopularMenuRedisEventListener.java:23-30 | an order is lost after a run if and only if it was lost before or some step of the run was a lost ZADD of its waiting update or a crash of its instance while it waited |
| `Gaps.ReadRightIffNothingLost` | src/main/java/com/example/coffee/domain/ranking/service/PopularMenuService.java:43-90 | from a shop in step with Redis, for any number of instances: a read that overlaps no order is right if and only if it falls back or the run lost no order of a listed menu and none of their ZCOUNTs was null |
| `Gaps.StaleIff` | src/main/java/com/example/coffee/infra/redis/PopularMenuRedisCounter.java:37-64 | the flag of an instance is set after a run if and only if it was set and the instance never crashed, or a failed ZADD of its listener or a thrown ZCOUNT of its read set it and it has not crashed since |
| `Gaps.FallsBackAfterFailure` | src/main/java/com/example/coffee/infra/redis/PopularMenuRedisCounter.java:44-64 | after such a failure every later read of the instance returns the answer of the query until the instance crashes |
| `Gaps.CommitQueues` | src/main/java/com/example/coffee/infra/redis/PopularMenuRedisEventListener.java:23-30 | the commit of an order queues both listeners on the instance of the request, with the values of the order row |
| `Gaps.MessageWaitsIff` | src/main/java/com/example/coffee/infra/dataplatform/OrderDataPlatformEventListener.java:25-37 | a listener stops waiting exactly when it runs or its instance crashes |
| `Gaps.UndercountIsForever` | src/main/java/com/example/coffee/infra/redis/PopularMenuRedisCounter.java:54-57 | a count that is short with no listener waiting is short after every run |
| `Gaps.CrashHidesMenu` | src/main/java/com/example/coffee/infra/redis/PopularMenuRedisCounter.java:29-45 | a run from a shop whose Redis equals its orders: payment, commit, crash; then, with no flag set, a count is short and the read differs from the query |
| `Cycles.FindCycle` | scripts/harness-oracles.py:105-137 | None exactly when the graph without self-edges is acyclic; a returned tuple is a real closed walk with otherwise distinct nodes; it terminates |
| `Cycles.Finder.Visit` | scripts/harness-oracles.py:116-131 | a visit that finds nothing restores the path and finishes its node; one that finds something returns a simple cycle |
| `Cycles.Finder.CloseCycle` | scripts/harness-oracles.py:117-119 | the path from the repeated node back to it is a simple cycle |
| `Cycles.Finder.VisitTargets` | scripts/harness-oracles.py:124-127 | visiting all targets without finding a cycle finishes each of them and leaves the path as it was |
| `Cycles.BuildGraph` | scripts/harness-oracles.py:106-110 | the graph has exactly the given edges without self-edges, and every target is a node |
| `Cycles.TopologicalIsAcyclic` | scripts/harness-oracles.py:128-137 | a finishing order that covers the graph rules out every closed walk |
| `Architecture.ValidateArchitecture` | scripts/harness-oracles.py:160-192 | over sources, imports and rules: PASS exactly when there are sources, all name a package, no import of the application goes from a layer under one end of a rule to a layer under the other, and the layers import each other in no circle; each other verdict exactly under its condition; a reported cycle consists of real imports |
| `Architecture.AddSource` | scripts/harness-oracles.py:171-183 | an edge from a to b exactly if the source has layer a and imports a name of the application of layer b; and whether an import breaks a rule |
| `Architecture.LayerIsLeadingSegments` | scripts/harness-oracles.py:89-98 | the layer of an application package is its first dotted segment, or its first two below `domain` and `infra` |
| `Architecture.LayerMatchesSegments` | scripts/harness-oracles.py:101-102 | a rule covers a layer exactly when its dotted segments are a prefix of the layer's |
| `Architecture.ExternalIsForeign` | scripts/harness-oracles.py:89-98 | the layer is `external` exactly for names outside the application and for its packages below `external` |
| `Text.SortSet` | scripts/harness-oracles.py:124 | the elements of the set in strictly ascending order |
| `Text.AtMostIsLexicographic` | scripts/harness-oracles.py:124 | that order is by code point at the first difference, a prefix first |
| `Text.CharacterClasses` | scripts/agent-harness.py:1672-1683 | which code points `strip` removes and which are control characters |
| `PathPatterns.MatchesSegments` | scripts/agent-harness.py:378-382 | on accepted patterns matching is equality of segment lists, or the prefix relation for a trailing `/**` |
| `PathPatterns.ValidPatternMeans` | scripts/agent-harness.py:351-375 | a pattern is accepted exactly if its segments are proper, without wildcards but a trailing `/**`, backslashes, control characters or surrounding blanks |
| `PathPatterns.SiblingNeverMatches` | scripts/agent-harness.py:351-382 | a directory pattern never matches a sibling whose name only starts the same |
| `PathPatterns.DirectoryCoversSubdirectory` | scripts/agent-harness.py:378-382 | a directory pattern matches whatever a pattern of a directory inside it matches |
| `NameStatus.ParseNameStatus` | scripts/agent-harness.py:764-790 | the loop accepts exactly the streams of the grammar and returns their paths in order |
| `NameStatus.ParseNulPaths` | scripts/agent-harness.py:793-798 | the tokens of a NUL-terminated stream, refused when one is empty |
| `NameStatus.TakePaths` | scripts/agent-harness.py:786-788 | the given number of paths, refused when one is empty |
| `NameStatus.ReadPrint` | scripts/agent-harness.py:764-790 | every well-formed record list survives printing and parsing |
| `NameStatus.PrintRead` | scripts/agent-harness.py:764-790 | every accepted stream is the print of exactly one record list |
| `NameStatus.OnePathStatus` | scripts/agent-harness.py:776-788 | a status and one path is accepted exactly for the seven letters A B D M T U X, and gives that path |
| `NameStatus.TwoPathStatus` | scripts/agent-harness.py:776-788 | a status and two paths is accepted exactly for R or C with at most three digits, and gives both paths |
| `GitPaths.CollectChangedPaths` | scripts/agent-harness.py:827-872 | the union of the four streams, refused when any of them is malformed |
| `GitPaths.CollectMissesNothing` | scripts/agent-harness.py:827-872 | the four streams of a repository are accepted, and every path on which merge base and worktree differ is collected, unless it is untracked and ignored |
| `GitPaths.PassedMigrationsAgree` | scripts/agent-harness.py:1027-1110 | passing the migration check means merge base, HEAD, index and worktree agree on every base migration |
| `GitPaths.AddedMigrationsPass` | scripts/agent-harness.py:1083-1110 | a repository that only adds migrations, all of them reported, passes |
| `GitPaths.MigrationVerdicts` | scripts/agent-harness.py:1083-1110 | each verdict exactly under its condition; a mutation missing from the changed paths is reported first |
| `Risks.ClassifyRisks` | scripts/agent-harness.py:945-968 | a risk is detected exactly when a rule that matches a changed path carries it; a path is unclassified exactly when no rule matches it |
| `Risks.MatchRules` | scripts/agent-harness.py:957-961 | whether any rule matches a path, and the risks of all rules that do |
| `Risks.RequiredCheckIds` | scripts/agent-harness.py:1606-1616 | the two fixed ids, then in order exactly the non-inline checks of the declared and detected risks; refused for a risk without checks |
| `Risks.ScopeRespected` | scripts/agent-harness.py:932-942 | no path is out of scope exactly when every changed path but the plan matches an allowed pattern |
| `Risks.ProtectionRespected` | scripts/agent-harness.py:996-1024 | no protected path is undeclared exactly when every changed path but the plan that matches a protected pattern is declared |
| `Checks.AggregateIsWorst` | scripts/agent-harness.py:270-275 | the aggregate is the worst state present, PASS only if every check passed; REPLAN_REQUIRED beats FAIL beats BLOCKED |
| `Checks.ValidateCheckRunnerResults` | scripts/agent-harness.py:1699-1756 | no error exactly when the results are well formed and enumerate the required ids without repetition |
| `Checks.WellFormedMeans` | scripts/agent-harness.py:1672-1696 | what the schema check asks of each result, the id included |
| `Checks.RunRequiredChecks` | scripts/agent-harness.py:1619-1669 | the results of the built-in runner, with `gradle.test` blocked unless all four environment checks pass |
| `Checks.BuiltInResultsAre` | scripts/agent-harness.py:1619-1669 | the results id by id: the outcome of the command, BLOCKED without one; for `gradle.test` the four environment checks, and BLOCKED unless all pass |
| `Checks.CommandIds` | scripts/agent-harness.py:236-247 | the ten ids that have a command |
| `Checks.BuiltInIds` | scripts/agent-harness.py:1619-1669 | the built-in runner reports exactly the required ids, and repeats one only for a repeated id or an environment id beside `gradle.test` |
| `Checks.BuiltInRunnerAccepted` | scripts/agent-harness.py:1619-1756 | the answer of the built-in runner is accepted if and only if no requested id is repeated, malformed, or an environment id beside `gradle.test` |
| `Checks.ControlIdRefused` | scripts/agent-harness.py:1619-1756 | a refused request with a control character |
| `Checks.EnvironmentIdRefused` | scripts/agent-harness.py:1619-1756 | a refused request with an environment id beside `gradle.test` |
| `Checks.BuiltInRunnerPasses` | scripts/agent-harness.py:1619-1669 | the built-in runner passes exactly when every requested check has a command and it succeeds, and all four environment checks pass if `gradle.test` is requested |
| `PlanLock.LockRoundTrip` | scripts/agent-harness.py:1268-1368 | a lock made from a parsed plan and a resolved context is read back unchanged |
| `PlanLock.LoadedIsPrinted` | scripts/agent-harness.py:1308-1368 | an accepted lock file is the print of the lock it is read as |
| `PlanLock.LockAcceptedIffUnchanged` | scripts/agent-harness.py:1371-1383 | the lock is accepted while the seven locked values are unchanged, and only then |
| `PlanLock.LoadedIff` | scripts/agent-harness.py:1308-1368 | exactly which files are loaded: the eight fields and no other, each of its type and form; every refusal asks for a new plan |
| `PlanLock.LoadedMatches` | scripts/agent-harness.py:1371-1383 | a loaded lock matches exactly when the fields of its file are the values of plan and context |
| `PlanLock.WrittenFields` | scripts/agent-harness.py:1268-1291 | what is written for a plan and a context, field by field |
| `Names.BranchIff` | scripts/agent-harness.py:196-198 | a branch of an issue is a kind, the number in decimal, and a slug of words, and nothing else is |
| `Names.PlanPathIff` | scripts/agent-harness.py:199-204 | a plan path of an issue is the number alone, or `issue-`, the number and a slug, and nothing else is |
| `Names.LeadingNumberIff` | scripts/agent-harness.py:196-204 | reading a leading number is the inverse of printing one without leading zeros |
| `Harness.Preparation.Prepare` | scripts/agent-harness.py:1782-1828 | PASS exactly when everything seen lines up, and then the lock is on file and readable, or when the preflight was called and raised a violation with state PASS; on every other outcome than the first no lock is left but one the preflight itself leaves; otherwise the state is that of the first fault |
| `Harness.RaisedPassPrepares` | scripts/agent-harness.py:1819-1820 | wherever the preflight is called, one that raises a violation with state PASS makes prepare say PASS |
| `Harness.PreflightCanBeSkipped` | scripts/agent-harness.py:1819-1820 | such observations exist for every plan and context |
| `Harness.Preparation.CheckPreflight` | scripts/agent-harness.py:1516-1552 | passes exactly when the four environment checks are present once each, well formed and PASS |
| `Harness.Preparation.Look` | scripts/agent-harness.py:1791-1795 | no exception exactly when policy, plan and context were read and nothing but the plan is dirty |
| `Harness.Script.Evaluate` | scripts/agent-harness.py:1959-2204 | for every sequence of observations and every runner: PASS if and only if everything seen lines up, or the runner raised a violation with state PASS and everything else lines up; then the files hold exactly this evaluation and the lock. On every outcome: the first fault of the start and every fault of the end are among the checks with their states, the state is the worst of them, every field holds what was seen before the first fault, and both files are stated |
| `Harness.PassesIffLinesUp` | scripts/agent-harness.py:2095-2104 | if the runner raises no violation with state PASS, the verdict is PASS exactly when everything lines up |
| `Harness.RaisedPassPasses` | scripts/agent-harness.py:2103-2104 | wherever the runner is called and the end lines up, a runner that raises a violation with state PASS makes evaluate say PASS with no runner result but the one the violation names |
| `Harness.ChecksCanBeSkipped` | scripts/agent-harness.py:2103-2104 | such observations exist for every plan without declared risks |
| `Harness.Script.Inspect` | scripts/agent-harness.py:2008-2112 | the checks of the first block all pass exactly when start identity and policy line up and the runner results do or the runner raised a violation with state PASS; the files change only if the runner was called |
| `Harness.Script.LoadPlanAndContext` | scripts/agent-harness.py:2009-2012 | no exception exactly when the worktree is clean and policy, plan and context were read |
| `Harness.Script.CheckLock` | scripts/agent-harness.py:2013-2014 | no exception exactly when the lock was read and matches plan and context |
| `Harness.Script.CheckScope` | scripts/agent-harness.py:2029-2055 | no exception exactly when no base migration is mutated, every mutation is reported, and every changed path but the plan matches an allowed pattern; otherwise which check is reported |
| `Harness.Script.CheckRisks` | scripts/agent-harness.py:2057-2094 | no exception exactly when every path is classified, every detected risk declared, every changed path but the plan that matches a protected pattern declared, and every risk has checks; then the right checks are requested; otherwise which check is reported |
| `Harness.Script.Freshness` | scripts/agent-harness.py:1831-1922 | PASS exactly when the end is clean and the eight identities are unchanged; ending plan and context are given exactly when every look at the end succeeded |
| `Harness.Script.Conclude` | scripts/agent-harness.py:2114-2148 | the lock is restored exactly when start and end were read completely and it matches the ending plan and context; otherwise there is a non-PASS check |
| `Harness.Script.Recheck` | scripts/agent-harness.py:2150-2171 | nothing is written unless the evidence paths are still the ones seen at the start |
| `Harness.Script.Write` | scripts/agent-harness.py:2150-2203 | the lock is written before the evaluation, the evaluation only if the lock was; a failed write is reported and changes the state |
| `Harness.AcceptedIsComplete` | scripts/agent-harness.py:2094-2102 | accepting the runner's answer is having every check the risks ask for and nothing else |
| `Harness.NoRiskEscapes` | scripts/agent-harness.py:2042-2104 | on PASS every changed path but the plan is allowed and classified, each risk of each matching rule is declared, and protected paths are declared; if the runner raised no violation with state PASS, each check of each such risk is present with PASS |
| `Harness.NoChangeEscapes` | scripts/agent-harness.py:827-872 | from the repository to the verdict: on PASS the same holds for every path on which merge base and worktree differ, the plan and untracked ignored files apart |
| `Harness.NoMigrationEscapes` | scripts/agent-harness.py:1027-1110 | on PASS every migration of the merge base is in the worktree, unchanged |
| `Harness.MalformedIdNeverPasses` | scripts/agent-harness.py:1672-1683 | a declared risk with a malformed check id rules out PASS for every runner that raises no violation with state PASS |
| `Harness.BuiltInRunnerCompleteIff` | scripts/agent-harness.py:1606-1756 | the built-in runner answers completely if and only if no check id of a declared risk is malformed or an environment id |
| `Harness.BuiltInRunnerLinesUpIff` | scripts/agent-harness.py:1606-1669 | with the answer of the built-in runner the first block passes if and only if the fixed commands and the environment succeed and every check of every declared risk has a command that succeeds |
| `Harness.EnvironmentIdNeverPasses` | scripts/agent-harness.py:1619-1756 | with the built-in runner a declared risk that asks for an environment check rules out PASS |
| `Harness.PassIsPossible` | scripts/agent-harness.py:1959-2204 | for every plan without declared risks and every set of changed paths in its scope, the plan itself included, there are observations under which evaluate says PASS |
| `Publish.Finalize` | scripts/agent-publish.py:348-389 | for any runner: pushes, pull-request commands and merges come only after evaluate exited 0 with PASS evidence for the HEAD read; nothing follows a failed command; a merge follows a push and successful checks and is of the pull request just prepared, whose number is reported; COMPLETED needs last states MERGED and CLOSED; it gives up only if a command failed or its answer did not allow to go on |
| `Publish.Verify` | scripts/agent-publish.py:131-161 | issues no publishing command and succeeds only with a clean worktree and PASS evidence for the HEAD read |
| `Publish.Identify` | scripts/agent-publish.py:89-114 | succeeds only on an issue branch with a well-formed HEAD |
| `Publish.IssueBranchIff` | scripts/agent-publish.py:109-114 | an issue branch starts with a kind, the number of the issue in decimal and a hyphen |
| `Publish.CreateOrPreparePr` | scripts/agent-publish.py:191-279 | its first command is the push of the branch on every outcome; the number is the one in the answer to the creation, made if no pull request is open, or that of the only open one, which must be for this HEAD and is edited and marked ready exactly if it needs to be; it gives up only for a reason |
| `Publish.MergeAndVerify` | scripts/agent-publish.py:282-345 | checks, merge and look of the given pull request in this order, then the issue; success means that all were made and the last states are MERGED and CLOSED; it gives up only for a reason |
| `Publish.ConfirmIssue` | scripts/agent-publish.py:311-345 | one look at the issue, or, exactly if it is open, a look, a closing and a second look; success needs the last state to be CLOSED; it gives up only for a reason |
| `PlanLock.SampleIsParsed` | scripts/agent-harness.py:196-206 | plans and contexts that meet the patterns exist |

## Left out

- Spring, JPA, MySQL, Redis and Kafka themselves: locking read, atomic commit and rollback, ZADD, ZCOUNT and after-commit delivery are the steps of the model.
- Order of external messages relative to commit order: the send listener is asynchronous, and nothing in the code fixes it.
- Kafka producer and consumer retries: a message handed to the client once may be delivered more often by the broker.
- Loss of data inside Redis: the repository has no step for it.
- Parsing of plan and policy JSON and the version part of `contractChanges`: the harness model starts from the parsed values.
- SHA-256 and the byte layout of the diff hash: it is a value compared for equality.
- Symlink, directory and temporary-file handling of the evidence files: each look at a path may fail in any way, and a write happens or does not.
- Extraction of package, import and route names by regular expressions: the architecture model starts from the extracted names.
- API contract, migration numbering, documentation links, controllers and response wrappers: they would only add easy members.
- The schema version and plan path of an evaluation: copied through, nothing depends on them.
- Which cycle is reported when there are several: the visiting order is modelled, the choice is not stated.
