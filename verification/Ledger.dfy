/**
 The books of the coffee shop: balances, point history and orders, and what one request does
 to them when it runs alone. `Serial` is the one-request-at-a-time reference that the
 concurrent protocol is compared with.
 */
module Ledger {
  import opened Wrappers
  import opened Micros

  type UserId = int
  type MenuId = int

  datatype Menu = Menu(name: string, price: int)
  datatype Kind = CHARGE | USE
  datatype HistoryRow = HistoryRow(user: UserId, amount: int, kind: Kind)
  datatype OrderRow = OrderRow(user: UserId, menu: MenuId, price: int, createdAt: DateTime)

  // Rows are keyed by their auto-increment ids; aborted inserts leave gaps.
  datatype Books = Books(
    balances: map<UserId, int>,
    history: map<nat, HistoryRow>,
    orders: map<nat, OrderRow>)

  datatype Request = Charge(user: UserId, amount: Option<int>) | Order(user: UserId, menu: MenuId)

  datatype Error =
    | INVALID_CHARGE_AMOUNT
    | MENU_NOT_FOUND
    | USER_NOT_FOUND
    | POINT_BALANCE_OVERFLOW
    | INSUFFICIENT_POINT
    | ILLEGAL_ARGUMENT
    | INSERT_REJECTED       // the database refuses a row whose time does not fit its column

  datatype Response =
    | Charged(user: UserId, balance: int)
    | Ordered(orderId: nat, user: UserId, menu: MenuId, price: int, balance: int)

  datatype OrderPaidEvent = OrderPaidEvent(orderId: nat, user: UserId, menu: MenuId, amount: int, orderedAt: DateTime)
  datatype OrderDataMessage = OrderDataMessage(user: UserId, menu: MenuId, amount: int)

  // What a request draws from outside the books: the menu price it saw, its row ids, its clock reading.
  datatype Draws = Draws(price: Option<int>, historyId: nat, orderId: nat, orderedAt: DateTime)

  // A charge draws only a history id; the other parts are not used.
  function ChargeDraws(historyId: nat): Draws {
    Draws(None, historyId, 0, Stamp(0, 0))
  }

  // ----- the user row

  // `Math.addExact`
  function AddExact(x: int, y: int): Option<int> {
    if LONG_MIN <= x + y <= LONG_MAX then Some(x + y) else None
  }

  function UseBalance(balance: int, amount: int): Result<int, Error> {
    if amount <= 0 then Err(ILLEGAL_ARGUMENT)
    else if balance < amount then Err(INSUFFICIENT_POINT)
    else Ok(balance - amount)
  }

  class User {
    const id: UserId
    var balance: int

    constructor (id: UserId, balance: int)
      ensures this.id == id && this.balance == balance
    {
      this.id := id;
      this.balance := balance;
    }

    // False is the ArithmeticException of `Math.addExact`.
    method Charge(amount: int) returns (ok: bool)
      modifies this
      ensures ok <==> LONG_MIN <= old(balance) + amount <= LONG_MAX
      ensures balance == if ok then old(balance) + amount else old(balance)
    {
      match AddExact(balance, amount)
      case Some(sum) =>
        balance := sum;
        ok := true;
      case None =>
        ok := false;
    }

    method Use(amount: int) returns (error: Option<Error>)
      modifies this
      ensures error == None <==> 0 < amount <= old(balance)
      ensures error == None ==> UseBalance(old(balance), amount) == Ok(balance)
      ensures error.Some? ==> UseBalance(old(balance), amount) == Err(error.value) && balance == old(balance)
      ensures error == Some(ILLEGAL_ARGUMENT) <==> amount <= 0
      ensures error == Some(INSUFFICIENT_POINT) <==> amount > 0 && old(balance) < amount
      ensures error == None ==> balance == old(balance) - amount
      ensures old(balance) >= 0 ==> balance >= 0
    {
      if amount <= 0 {
        return Some(ILLEGAL_ARGUMENT);
      }
      if balance < amount {
        return Some(INSUFFICIENT_POINT);
      }
      balance := balance - amount;
      return None;
    }
  }

  // ----- one request running alone

  // The checks made before the user row is locked.
  function Precheck(request: Request, price: Option<int>): Option<Error> {
    match request
    case Charge(_, amount) =>
      if amount.None? || amount.value <= 0 then Some(INVALID_CHARGE_AMOUNT) else None
    case Order(_, _) =>
      if price.None? then Some(MENU_NOT_FOUND) else None
  }

  // The balance the request leaves on the locked row.
  function NewBalance(balance: int, request: Request, price: Option<int>): Result<int, Error>
    requires Precheck(request, price) == None
  {
    match request
    case Charge(_, amount) =>
      (match AddExact(balance, amount.value)
       case Some(sum) => Ok(sum)
       case None => Err(POINT_BALANCE_OVERFLOW))
    case Order(_, _) => UseBalance(balance, price.value)
  }

  function HistoryOf(request: Request, price: Option<int>): HistoryRow
    requires Precheck(request, price) == None
  {
    match request
    case Charge(user, amount) => HistoryRow(user, amount.value, CHARGE)
    case Order(user, _) => HistoryRow(user, price.value, USE)
  }

  function Paid(books: Books, request: Request, d: Draws, balance: int): Books
    requires Precheck(request, d.price) == None
  {
    Books(
      books.balances[request.user := balance],
      books.history[d.historyId := HistoryOf(request, d.price)],
      if request.Order?
      then books.orders[d.orderId := OrderRow(request.user, request.menu, d.price.value, d.orderedAt)]
      else books.orders)
  }

  function Reply(request: Request, d: Draws, balance: int): Response
    requires Precheck(request, d.price) == None
  {
    match request
    case Charge(user, _) => Charged(user, balance)
    case Order(user, menu) => Ordered(d.orderId, user, menu, d.price.value, balance)
  }

  function Serial(books: Books, request: Request, d: Draws): (Books, Result<Response, Error>) {
    match Precheck(request, d.price)
    case Some(error) => (books, Err(error))
    case None =>
      if request.user !in books.balances then (books, Err(USER_NOT_FOUND))
      else match NewBalance(books.balances[request.user], request, d.price)
        case Err(error) => (books, Err(error))
        case Ok(balance) =>
          if request.Order? && !Storable(d.orderedAt) then (books, Err(INSERT_REJECTED))
          else (Paid(books, request, d, balance), Ok(Reply(request, d, balance)))
  }

  // ----- the services, statement by statement

  class Database {
    var menus: map<MenuId, Menu>
    var books: Books
    var nextHistory: nat
    var nextOrder: nat
    var events: seq<OrderPaidEvent>

    constructor (menus: map<MenuId, Menu>, books: Books, nextHistory: nat, nextOrder: nat)
      ensures this.menus == menus && this.books == books && this.events == []
      ensures this.nextHistory == nextHistory && this.nextOrder == nextOrder
    {
      this.menus, this.books, this.events := menus, books, [];
      this.nextHistory, this.nextOrder := nextHistory, nextOrder;
    }
  }

  function MenuPrice(menus: map<MenuId, Menu>, menu: MenuId): Option<int> {
    if menu in menus then Some(menus[menu].price) else None
  }

  class OrderService {
    const db: Database

    constructor (db: Database)
      ensures this.db == db
    {
      this.db := db;
    }

    method Order(userId: UserId, menuId: MenuId, now: DateTime) returns (r: Result<Response, Error>)
      modifies db
      ensures (db.books, r)
           == Serial(old(db.books), Request.Order(userId, menuId),
                     Draws(MenuPrice(old(db.menus), menuId), old(db.nextHistory), old(db.nextOrder), Truncate(now)))
      ensures db.menus == old(db.menus)
      // The five refusals, in the order in which they are made.
      ensures r == Err(MENU_NOT_FOUND) <==> menuId !in db.menus
      ensures r == Err(USER_NOT_FOUND) <==> menuId in db.menus && userId !in old(db.books).balances
      ensures r == Err(ILLEGAL_ARGUMENT) <==>
                menuId in db.menus && userId in old(db.books).balances && db.menus[menuId].price <= 0
      ensures r == Err(INSUFFICIENT_POINT) <==>
                menuId in db.menus && userId in old(db.books).balances
                && 0 < db.menus[menuId].price && old(db.books).balances[userId] < db.menus[menuId].price
      ensures r == Err(INSERT_REJECTED) <==>
                menuId in db.menus && userId in old(db.books).balances
                && 0 < db.menus[menuId].price <= old(db.books).balances[userId] && !Storable(Truncate(now))
      ensures r.Err? ==> db.books == old(db.books) && db.events == old(db.events)
      // A success: the price leaves the balance, one row in each table, the answer, the event.
      ensures r.Ok? ==>
                && menuId in db.menus && userId in old(db.books).balances
                && var price, balance := db.menus[menuId].price, old(db.books).balances[userId];
                   && db.books.balances == old(db.books).balances[userId := balance - price]
                   && db.books.history == old(db.books).history[old(db.nextHistory) := HistoryRow(userId, price, USE)]
                   && db.books.orders
                      == old(db.books).orders[old(db.nextOrder) := OrderRow(userId, menuId, price, Truncate(now))]
                   && r.value == Ordered(old(db.nextOrder), userId, menuId, price, db.books.balances[userId])
                   && old(db.nextHistory) < db.nextHistory && old(db.nextOrder) < db.nextOrder
                   && db.events
                      == old(db.events) + [OrderPaidEvent(old(db.nextOrder), userId, menuId, price, Truncate(now))]
    {
      if menuId !in db.menus {
        return Err(MENU_NOT_FOUND);
      }
      if userId !in db.books.balances {
        return Err(USER_NOT_FOUND);
      }
      var user := new User(userId, db.books.balances[userId]);
      var price := db.menus[menuId].price;
      var error := user.Use(price);
      if error.Some? {
        return Err(error.value);
      }
      var historyId := db.nextHistory;
      db.nextHistory := db.nextHistory + 1;
      var historyRow := HistoryRow(userId, price, USE);
      var orderedAt := Truncate(now);
      if !Storable(orderedAt) {
        return Err(INSERT_REJECTED);
      }
      var orderId := db.nextOrder;
      db.nextOrder := db.nextOrder + 1;
      var orderRow := OrderRow(userId, menuId, price, orderedAt);
      // Commit: the dirty user row and both inserts become visible together; listeners may now run.
      db.books := Books(
        db.books.balances[userId := user.balance],
        db.books.history[historyId := historyRow],
        db.books.orders[orderId := orderRow]);
      db.events := db.events + [OrderPaidEvent(orderId, userId, menuId, price, orderedAt)];
      return Ok(Ordered(orderId, userId, menuId, price, user.balance));
    }
  }

  class PointService {
    const db: Database

    constructor (db: Database)
      ensures this.db == db
    {
      this.db := db;
    }

    method Charge(userId: UserId, amount: Option<int>) returns (r: Result<Response, Error>)
      modifies db
      ensures (db.books, r) == Serial(old(db.books), Request.Charge(userId, amount), ChargeDraws(old(db.nextHistory)))
      ensures db.menus == old(db.menus) && db.events == old(db.events)
      // The three refusals, in the order in which they are made.
      ensures r == Err(INVALID_CHARGE_AMOUNT) <==> amount.None? || amount.value <= 0
      ensures r == Err(USER_NOT_FOUND) <==>
                amount.Some? && amount.value > 0 && userId !in old(db.books).balances
      ensures r == Err(POINT_BALANCE_OVERFLOW) <==>
                amount.Some? && amount.value > 0 && userId in old(db.books).balances
                && !(LONG_MIN <= old(db.books).balances[userId] + amount.value <= LONG_MAX)
      ensures r.Err? ==> db.books == old(db.books)
      // A success: the amount joins the balance, one row, and the new balance is the answer.
      ensures r.Ok? ==>
                && amount.Some? && userId in old(db.books).balances
                && db.books.balances
                   == old(db.books).balances[userId := old(db.books).balances[userId] + amount.value]
                && db.books.history
                   == old(db.books).history[old(db.nextHistory) := HistoryRow(userId, amount.value, CHARGE)]
                && db.books.orders == old(db.books).orders
                && r.value == Charged(userId, db.books.balances[userId])
                && old(db.nextHistory) < db.nextHistory
    {
      if amount.None? || amount.value <= 0 {
        return Err(INVALID_CHARGE_AMOUNT);
      }
      if userId !in db.books.balances {
        return Err(USER_NOT_FOUND);
      }
      var user := new User(userId, db.books.balances[userId]);
      var ok := user.Charge(amount.value);
      if !ok {
        return Err(POINT_BALANCE_OVERFLOW);
      }
      var historyId := db.nextHistory;
      db.nextHistory := db.nextHistory + 1;
      db.books := db.books.(
        balances := db.books.balances[userId := user.balance],
        history := db.books.history[historyId := HistoryRow(userId, amount.value, CHARGE)]);
      return Ok(Charged(user.id, user.balance));
    }
  }
}
