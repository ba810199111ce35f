/**
 The Redis read model: one sorted set of order scores per menu, and a sticky stale flag in the process.
 */
module RedisCounter {
  import opened Wrappers
  import opened Micros
  import opened Ledger

  // menu id -> (order id -> score)
  type ZSets = map<MenuId, map<nat, int>>

  function Members(z: ZSets, menu: MenuId): map<nat, int> {
    if menu in z then z[menu] else map[]
  }

  function ZAdd(z: ZSets, menu: MenuId, order: nat, score: int): ZSets {
    z[menu := Members(z, menu)[order := score]]
  }

  function ScoreRange(members: map<nat, int>, low: int, high: int): set<nat> {
    set order | order in members && low <= members[order] <= high
  }

  function ZCount(z: ZSets, menu: MenuId, low: int, high: int): nat {
    |ScoreRange(Members(z, menu), low, high)|
  }

  // How a ZADD went: done, lost, or done although the caller saw an exception.
  datatype Fault = NoFault | Lost | DoneButFailed

  // How a ZCOUNT went: answered, answered with null, or thrown.
  datatype Answer = Counted | Absent | Thrown

  function AnswerAt(answers: seq<Answer>, k: nat): Answer {
    if k < |answers| then answers[k] else Counted
  }

  // Some ZCOUNT of the first `n` throws.
  predicate Throws(answers: seq<Answer>, n: nat) {
    exists k :: 0 <= k < n && AnswerAt(answers, k) == Thrown
  }

  lemma ThrowsMeans(answers: seq<Answer>, n: nat)
    ensures Throws(answers, n) <==> exists k :: 0 <= k < n && k < |answers| && answers[k] == Thrown
  {
    if k :| 0 <= k < n && k < |answers| && answers[k] == Thrown {
      assert AnswerAt(answers, k) == Thrown;
    }
  }

  // The count stored for the `k`-th menu.
  function Tally(z: ZSets, menuIds: seq<MenuId>, answers: seq<Answer>, from: DateTime, to: DateTime, k: nat): nat
    requires k < |menuIds|
  {
    if AnswerAt(answers, k) == Absent then 0
    else ZCount(z, menuIds[k], Score(from), HighScore(to))
  }

  // The map after the first `n` puts.
  function Tallies(z: ZSets, menuIds: seq<MenuId>, answers: seq<Answer>, from: DateTime, to: DateTime, n: nat)
    : map<MenuId, nat>
    requires n <= |menuIds|
  {
    if n == 0 then map[]
    else Tallies(z, menuIds, answers, from, to, n - 1)[menuIds[n - 1] := Tally(z, menuIds, answers, from, to, n - 1)]
  }

  // None is the exception: the flag was set, or some ZCOUNT threw.
  function CountReply(stale: bool, z: ZSets, menuIds: seq<MenuId>, answers: seq<Answer>, from: DateTime, to: DateTime)
    : Option<map<MenuId, nat>>
  {
    if stale || Throws(answers, |menuIds|) then None else Some(Tallies(z, menuIds, answers, from, to, |menuIds|))
  }

  // The menus whose ZCOUNT was answered with null.
  function AbsentMenus(menuIds: seq<MenuId>, answers: seq<Answer>): set<MenuId> {
    set k | 0 <= k < |menuIds| && AnswerAt(answers, k) == Absent :: menuIds[k]
  }

  lemma AbsentMenusAre(menuIds: seq<MenuId>, answers: seq<Answer>, menu: MenuId)
    ensures menu in AbsentMenus(menuIds, answers)
       <==> exists k :: 0 <= k < |menuIds| && k < |answers| && menuIds[k] == menu && answers[k] == Absent
  {
    if k :| 0 <= k < |menuIds| && k < |answers| && menuIds[k] == menu && answers[k] == Absent {
      assert AnswerAt(answers, k) == Absent;
    }
  }

  // With distinct menus every stored count is the ZCOUNT of its own menu, or 0 where the answer was null.
  lemma {:induction false} TalliesExact(
    z: ZSets, menuIds: seq<MenuId>, answers: seq<Answer>, from: DateTime, to: DateTime, n: nat)
    requires n <= |menuIds|
    requires forall i, j :: 0 <= i < j < |menuIds| ==> menuIds[i] != menuIds[j]
    ensures var counts := Tallies(z, menuIds, answers, from, to, n);
      && (forall id :: id in counts <==> id in menuIds[..n])
      && (forall k :: 0 <= k < n ==>
            counts[menuIds[k]] == if menuIds[k] in AbsentMenus(menuIds, answers) then 0
                                  else ZCount(z, menuIds[k], Score(from), HighScore(to)))
  {
    if n > 0 {
      TalliesExact(z, menuIds, answers, from, to, n - 1);
      assert menuIds[..n] == menuIds[..n - 1] + [menuIds[n - 1]];
      assert AnswerAt(answers, n - 1) == Absent <==> menuIds[n - 1] in AbsentMenus(menuIds, answers);
    }
  }

  class PopularMenuRedisCounter {
    var zsets: ZSets
    var readModelStale: bool

    constructor (zsets: ZSets)
      ensures this.zsets == zsets && !readModelStale
    {
      this.zsets := zsets;
      readModelStale := false;
    }

    method Record(orderId: nat, menuId: MenuId, orderedAt: DateTime, fault: Fault) returns (thrown: bool)
      modifies this
      ensures thrown == (fault != NoFault)
      ensures readModelStale == (old(readModelStale) || thrown)
      ensures zsets == if fault == Lost then old(zsets) else ZAdd(old(zsets), menuId, orderId, Score(orderedAt))
      ensures fault != Lost ==>
                && Members(zsets, menuId) == Members(old(zsets), menuId)[orderId := Score(orderedAt)]
                && forall m :: m != menuId ==> Members(zsets, m) == Members(old(zsets), m)
    {
      if fault != Lost {
        zsets := ZAdd(zsets, menuId, orderId, Widen(ToEpochMicros(orderedAt)));
      }
      thrown := fault != NoFault;
      if thrown {
        readModelStale := true;
      }
    }

    method CountByMenuIds(menuIds: seq<MenuId>, from: DateTime, to: DateTime, answers: seq<Answer>)
      returns (r: Option<map<MenuId, nat>>)
      modifies this`readModelStale
      ensures r == CountReply(old(readModelStale), zsets, menuIds, answers, from, to)
      ensures readModelStale == r.None?
      ensures r.None?
         <==> old(readModelStale) || exists k :: 0 <= k < |menuIds| && k < |answers| && answers[k] == Thrown
    {
      ThrowsMeans(answers, |menuIds|);
      if readModelStale {
        return None;
      }
      var fromScore := ToEpochMicros(from);
      var toScoreExclusive := ToEpochMicros(to);
      var counts: map<MenuId, nat> := map[];
      for i := 0 to |menuIds|
        invariant !Throws(answers, i)
        invariant counts == Tallies(zsets, menuIds, answers, from, to, i)
        invariant !readModelStale
      {
        var answer := AnswerAt(answers, i);
        if answer == Thrown {
          readModelStale := true;
          return None;
        }
        var count := ZCount(zsets, menuIds[i], Widen(fromScore), Widen(toScoreExclusive - 1));
        counts := counts[menuIds[i] := if answer == Absent then 0 else count];
      }
      return Some(counts);
    }
  }

  // ----- the after-commit listeners; both swallow what the call throws

  class PopularMenuRedisEventListener {
    const counter: PopularMenuRedisCounter

    constructor (counter: PopularMenuRedisCounter)
      ensures this.counter == counter
    {
      this.counter := counter;
    }

    method RecordAfterCommit(event: OrderPaidEvent, fault: Fault)
      modifies counter
      ensures counter.zsets == AfterRecord(old(counter.zsets), event, fault)
      ensures fault == Lost ==> counter.zsets == old(counter.zsets)
      ensures fault != Lost ==>
                && Members(counter.zsets, event.menu)
                   == Members(old(counter.zsets), event.menu)[event.orderId := Score(event.orderedAt)]
                && forall m :: m != event.menu ==> Members(counter.zsets, m) == Members(old(counter.zsets), m)
      ensures counter.readModelStale == (old(counter.readModelStale) || fault != NoFault)
    {
      var thrown := counter.Record(event.orderId, event.menu, event.orderedAt, fault);
      if thrown {
        // logged and dropped
      }
    }
  }

  function AfterRecord(z: ZSets, event: OrderPaidEvent, fault: Fault): ZSets {
    if fault == Lost then z else ZAdd(z, event.menu, event.orderId, Score(event.orderedAt))
  }

  function MessageOf(event: OrderPaidEvent): OrderDataMessage {
    OrderDataMessage(event.user, event.menu, event.amount)
  }

  class DataPlatform {
    var received: seq<OrderDataMessage>

    constructor ()
      ensures received == []
    {
      received := [];
    }

    // True is an exception; the message may have arrived all the same.
    method Accept(message: OrderDataMessage, arrives: bool, throws: bool) returns (thrown: bool)
      modifies this
      ensures received == old(received) + if arrives then [message] else []
      ensures thrown == throws
    {
      if arrives {
        received := received + [message];
      }
      thrown := throws;
    }
  }

  class OrderDataPlatformEventListener {
    const platform: DataPlatform

    constructor (platform: DataPlatform)
      ensures this.platform == platform
    {
      this.platform := platform;
    }

    method SendAfterCommit(event: OrderPaidEvent, arrives: bool, throws: bool)
      modifies platform
      ensures platform.received
           == old(platform.received) + if arrives then [OrderDataMessage(event.user, event.menu, event.amount)] else []
    {
      var thrown := platform.Accept(OrderDataMessage(event.user, event.menu, event.amount), arrives, throws);
      if thrown {
        // logged and dropped
      }
    }
  }
}
