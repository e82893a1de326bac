/**
 * The order registry: the `orders` table and the five order handlers
 * (create, take, list available, list mine, remove).
 */
module OrderRoutes {
  import opened Wrappers
  import opened Queries
  import opened Models
  import opened Tokens
  import opened HttpStatus

  const ORDER_ALREADY_EXISTS: string := "Order already exists"
  const ORDER_CREATED: string := "Ordere created successfuly"
  const NO_ORDER_WITH_ID: string := "No order with given ID"
  const ORDER_ALREADY_TAKEN: string := "Order already taken"
  const ORDER_TAKEN: string := "Order has been taken"
  const TOKEN_EXPIRED: string := "Access token has expired, please log in again"
  const NOTE_ID_UNDEFINED: string := "note id undefined"
  const UNAUTHORIZED_REQUEST: string := "Unauthorized user request"

  /** The fields of an order-creation request (its access_token is not used by the handler). */
  datatype CreateRequest = CreateRequest(
    title: string,
    addresFrom: string,
    addresTo: string,
    description: string,
    requiredLoaders: int,
    rigging: bool,
    disassembly: bool,
    latitud: Coordinate,
    longitude: Coordinate)

  /** An order as the list handlers return it: every column except driver_id and created_at. */
  datatype OrderView = OrderView(
    id: int,
    title: string,
    addresFrom: string,
    addresTo: string,
    description: string,
    requiredLoaders: int,
    rigging: bool,
    disassembly: bool,
    latitud: Coordinate,
    longitude: Coordinate)

  /**
   * What an order handler answers: a status and message, a listing with its count,
   * nothing at all (the handler falls off its end and returns None), or an exception
   * escaping the handler (a token that does not decode).
   */
  datatype Reply =
    | Status(code: int, message: string)
    | Listing(orders: seq<OrderView>, count: int)
    | NoReply
    | Raised

  function View(o: Order): OrderView {
    OrderView(o.id, o.title, o.addresFrom, o.addresTo, o.description, o.requiredLoaders,
              o.rigging, o.disassembly, o.latitude, o.longitude)
  }

  /** The serialised rows, one view per row, in row order. */
  function Views(rows: seq<Order>): seq<OrderView> {
    seq(|rows|, k requires 0 <= k < |rows| => View(rows[k]))
  }

  function WithPair(title: string, description: string): Order -> bool {
    (o: Order) => o.description == description && o.title == title
  }

  function WithId(id: int): Order -> bool {
    (o: Order) => o.id == id
  }

  /** The ownership test of the remove handler: the id matches and the caller is the order's driver. */
  function WithIdAndDriver(id: int, uid: int): Order -> bool {
    (o: Order) => o.id == id && o.driverId == Some(uid)
  }

  /** Row `i` after it has been claimed by user `uid`. */
  function Claim(os: seq<Order>, i: nat, uid: int): seq<Order>
    requires i < |os|
  {
    os[i := os[i].(driverId := Some(uid))]
  }

  /** The table without row `i`. */
  function Delete(os: seq<Order>, i: nat): seq<Order>
    requires i < |os|
  {
    os[..i] + os[i + 1..]
  }

  /** Python's decimal rendering of an integer, as the f-string messages use it. */
  function Decimal(n: int): string {
    if n < 0 then "-" + Digits(-n) else Digits(n)
  }

  function Digits(n: nat): string {
    if n < 10 then [Digit(n)] else Digits(n / 10) + [Digit(n % 10)]
  }

  function Digit(d: nat): char
    requires d < 10
  {
    "0123456789"[d]
  }

  function NoteDeleted(id: int): string {
    "Note with id " + Decimal(id) + " have been deleted"
  }

  function NoteNotFound(id: int): string {
    "Note with id " + Decimal(id) + " not found"
  }

  /** The serialisation loop of the two list handlers. */
  method Serialize(rows: seq<Order>) returns (out: seq<OrderView>)
    ensures |out| == |rows|
    ensures forall k :: 0 <= k < |rows| ==> out[k] == View(rows[k])
  {
    out := [];
    for i := 0 to |rows|
      invariant |out| == i
      invariant forall k :: 0 <= k < i ==> out[k] == View(rows[k])
    {
      out := out + [View(rows[i])];
    }
  }

  /** The views of the filtered rows are exactly the views of the table's rows satisfying `p`. */
  lemma ViewsOfFilter(os: seq<Order>, p: Order -> bool)
    ensures forall v :: v in Views(Filter(os, p)) <==> exists o :: o in os && p(o) && View(o) == v
  {
    var rows := Filter(os, p);
    forall v | v in Views(rows) ensures exists o :: o in os && p(o) && View(o) == v {
      var k :| 0 <= k < |rows| && Views(rows)[k] == v;
      assert rows[k] in os && p(rows[k]);
    }
    forall v | exists o :: o in os && p(o) && View(o) == v ensures v in Views(rows) {
      var o :| o in os && p(o) && View(o) == v;
      var j :| 0 <= j < |os| && os[j] == o;
      assert o in rows;
      var k :| 0 <= k < |rows| && rows[k] == o;
      assert Views(rows)[k] == v;
    }
  }

  class OrderTable {
    /** The `orders` table, in insertion order. */
    var orders: seq<Order>
    /** The id the next inserted order receives. */
    var nextId: int

    ghost predicate Valid()
      reads this
    {
      && UniqueOrderIds(orders)
      && UniquePairs(orders)
      && forall o :: o in orders ==> o.id < nextId
    }

    constructor ()
      ensures Valid() && orders == []
    {
      orders := [];
      nextId := 1;
    }

    /** CreateOrder: refuse a duplicate (title, description), otherwise insert an unclaimed order. */
    method CreateOrder(request: CreateRequest, now: Timestamp) returns (reply: Reply)
      requires Valid()
      modifies this
      ensures Valid()
      ensures reply == Status(CONFLICT, ORDER_ALREADY_EXISTS) <==>
        exists o :: o in old(orders) && o.title == request.title && o.description == request.description
      ensures reply != Status(CONFLICT, ORDER_ALREADY_EXISTS) ==> reply == Status(CREATED, ORDER_CREATED)
      ensures reply.code == CONFLICT ==> orders == old(orders) && nextId == old(nextId)
      ensures reply.code == CREATED ==>
        orders == old(orders) + [NewOrder(old(nextId), request.title, request.addresFrom, request.addresTo,
                                          request.description, request.requiredLoaders, request.rigging,
                                          request.disassembly, request.latitud, request.longitude, now)]
    {
      var existing := First(orders, WithPair(request.title, request.description));
      if existing.Some? {
        assert orders[existing.value] in orders;
        return Status(CONFLICT, ORDER_ALREADY_EXISTS);
      }
      forall o | o in orders ensures o.title != request.title || o.description != request.description {
        var k :| 0 <= k < |orders| && orders[k] == o;
        assert !WithPair(request.title, request.description)(orders[k]);
      }
      var newOrder := NewOrder(nextId, request.title, request.addresFrom, request.addresTo,
                               request.description, request.requiredLoaders, request.rigging,
                               request.disassembly, request.latitud, request.longitude, now);
      orders := orders + [newOrder];
      nextId := nextId + 1;
      reply := Status(CREATED, ORDER_CREATED);
    }

    /**
     * TakeOrder: decode the token, find the order by id, and claim it for the caller
     * unless it is claimed already.
     */
    method TakeOrder(token: string, decode: Decoder, orderId: int) returns (reply: Reply)
      requires Valid()
      modifies this
      ensures Valid() && nextId == old(nextId) && |orders| == |old(orders)|
      ensures token == "" ==> reply == NoReply
      ensures token != "" && !decode(token).Ok? ==> reply == Raised
      ensures reply != Status(ACCEPTED, ORDER_TAKEN) ==> orders == old(orders)
      ensures token != "" && decode(token).Ok? ==>
        match First(old(orders), WithId(orderId))
        case None => reply == Status(BAD_REQUEST, NO_ORDER_WITH_ID)
        case Some(i) =>
          if old(orders)[i].driverId.Some? then reply == Status(CONFLICT, ORDER_ALREADY_TAKEN)
          else reply == Status(ACCEPTED, ORDER_TAKEN) && orders == Claim(old(orders), i, decode(token).claims.userId)
      ensures forall k :: 0 <= k < |orders| && old(orders)[k].driverId.Some? ==> orders[k] == old(orders)[k]
    {
      if token == "" {
        return NoReply;
      }
      var userInfo := decode(token);
      if !userInfo.Ok? {
        return Raised;
      }
      var orderToTake := First(orders, WithId(orderId));
      if orderToTake.None? {
        return Status(BAD_REQUEST, NO_ORDER_WITH_ID);
      }
      var i := orderToTake.value;
      if orders[i].driverId.Some? {
        return Status(CONFLICT, ORDER_ALREADY_TAKEN);
      }
      orders := Claim(orders, i, userInfo.claims.userId);
      reply := Status(ACCEPTED, ORDER_TAKEN);
    }

    /** AvaliableListOrders: every unclaimed order, serialised, with the count. */
    method AvaliableListOrders() returns (reply: Reply)
      ensures reply == Listing(Views(Filter(orders, IsAvailable)), |Filter(orders, IsAvailable)|)
      ensures forall v :: v in reply.orders <==> exists o :: o in orders && o.driverId.None? && View(o) == v
      ensures reply.count == |reply.orders|
    {
      var userOrders := Filter(orders, IsAvailable);
      var avaliableFilteredOrders := Serialize(userOrders);
      ViewsOfFilter(orders, IsAvailable);
      reply := Listing(avaliableFilteredOrders, |avaliableFilteredOrders|);
    }

    /** MyListOrders: every order claimed by the token's user, serialised, with the count. */
    method MyListOrders(token: string, decode: Decoder) returns (reply: Reply)
      ensures token == "" ==> reply == NoReply
      ensures token != "" && !decode(token).Ok? ==> reply == Raised
      ensures token != "" && decode(token).Ok? ==>
        var uid := decode(token).claims.userId;
        && reply == Listing(Views(Filter(orders, DrivenBy(uid))), |Filter(orders, DrivenBy(uid))|)
        && (forall v :: v in reply.orders <==> exists o :: o in orders && o.driverId == Some(uid) && View(o) == v)
        && reply.count == |reply.orders|
    {
      if token == "" {
        return NoReply;
      }
      var userInfo := decode(token);
      if !userInfo.Ok? {
        return Raised;
      }
      var userOrders := Filter(orders, DrivenBy(userInfo.claims.userId));
      var usersFilteredOrders := Serialize(userOrders);
      ViewsOfFilter(orders, DrivenBy(userInfo.claims.userId));
      reply := Listing(usersFilteredOrders, |usersFilteredOrders|);
    }

    /**
     * remove_note: authenticate, require a non-zero id, then delete the order with that id
     * whose driver is the caller. The handler as written filters on `Order.author_id`, a
     * column the Order model does not declare; ownership here is `driver_id == user_id`
     * (see RemoveNoteAsWritten).
     */
    method RemoveNote(token: string, decode: Decoder, noteId: Option<int>) returns (reply: Reply)
      requires Valid()
      modifies this
      ensures Valid() && nextId == old(nextId)
      ensures token == "" ==> reply == Status(UNAUTHORIZED, UNAUTHORIZED_REQUEST)
      ensures token != "" && decode(token).Expired? ==> reply == Status(UNAUTHORIZED, TOKEN_EXPIRED)
      ensures token != "" && decode(token).Malformed? ==> reply == Raised
      ensures token != "" && decode(token).Ok? && (noteId.None? || noteId.value == 0) ==>
        reply == Status(NOT_FOUND, NOTE_ID_UNDEFINED)
      ensures !(reply.Status? && reply.code == ACCEPTED) ==> orders == old(orders)
      ensures token != "" && decode(token).Ok? && noteId.Some? && noteId.value != 0 ==>
        match First(old(orders), WithIdAndDriver(noteId.value, decode(token).claims.userId))
        case None => reply == Status(NOT_FOUND, NoteNotFound(noteId.value))
        case Some(i) => reply == Status(ACCEPTED, NoteDeleted(noteId.value)) && orders == Delete(old(orders), i)
    {
      if token == "" {
        return Status(UNAUTHORIZED, UNAUTHORIZED_REQUEST);
      }
      var userInfo := decode(token);
      if userInfo.Expired? {
        return Status(UNAUTHORIZED, TOKEN_EXPIRED);
      }
      if userInfo.Malformed? {
        return Raised;
      }
      if noteId.None? || noteId.value == 0 {
        return Status(NOT_FOUND, NOTE_ID_UNDEFINED);
      }
      var id := noteId.value;
      var noteDelete := First(orders, WithIdAndDriver(id, userInfo.claims.userId));
      if noteDelete.None? {
        return Status(NOT_FOUND, NoteNotFound(id));
      }
      DeleteKeepsInvariants(orders, noteDelete.value, nextId);
      orders := Delete(orders, noteDelete.value);
      reply := Status(ACCEPTED, NoteDeleted(id));
    }
  }

  /** Deleting a row keeps both uniqueness invariants and the id bound. */
  lemma DeleteKeepsInvariants(os: seq<Order>, i: nat, bound: int)
    requires i < |os|
    requires UniqueOrderIds(os) && UniquePairs(os) && forall o :: o in os ==> o.id < bound
    ensures UniqueOrderIds(Delete(os, i)) && UniquePairs(Delete(os, i))
    ensures forall o :: o in Delete(os, i) ==> o.id < bound
  {
  }

  /** Deletion removes exactly the chosen row: no other row is lost, and under unique ids no row keeps its id. */
  lemma {:induction false} DeleteRemovesExactlyOne(os: seq<Order>, i: nat)
    requires i < |os|
    ensures |Delete(os, i)| == |os| - 1
    ensures multiset(Delete(os, i)) + multiset{os[i]} == multiset(os)
    ensures UniqueOrderIds(os) ==> forall o :: o in Delete(os, i) ==> o.id != os[i].id
  {
    assert os == os[..i] + [os[i]] + os[i + 1..];
    if UniqueOrderIds(os) {
      var d := Delete(os, i);
      forall o | o in d ensures o.id != os[i].id {
        var k :| 0 <= k < |d| && d[k] == o;
        assert d[k] == os[if k < i then k else k + 1];
      }
    }
  }

  /** A claim changes no row's id, so every lookup by id finds the same row as before. */
  lemma ClaimKeepsLookup(os: seq<Order>, i: nat, uid: int, id: int)
    requires i < |os|
    ensures First(Claim(os, i, uid), WithId(id)) == First(os, WithId(id))
  {
    FirstCongruent(Claim(os, i, uid), os, WithId(id));
  }

  /**
   * After a claim of row `i` the claimed order is found again by its id and carries the
   * claimant as driver: the order cannot be claimed a second time.
   */
  lemma ClaimIsFinal(os: seq<Order>, i: nat, uid: int)
    requires i < |os| && UniqueOrderIds(os)
    ensures First(Claim(os, i, uid), WithId(os[i].id)) == Some(i)
    ensures Claim(os, i, uid)[i].driverId == Some(uid)
  {
  }

  /** Claiming an available order moves it from the available list to the claimant's list. */
  lemma ClaimMovesOrder(os: seq<Order>, i: nat, uid: int)
    requires i < |os| && IsAvailable(os[i]) && UniqueOrderIds(os)
    ensures |Filter(Claim(os, i, uid), IsAvailable)| == |Filter(os, IsAvailable)| - 1
    ensures |Filter(Claim(os, i, uid), DrivenBy(uid))| == |Filter(os, DrivenBy(uid))| + 1
    ensures forall o :: o in Filter(Claim(os, i, uid), IsAvailable) ==> o.id != os[i].id
    ensures Claim(os, i, uid)[i] in Filter(Claim(os, i, uid), DrivenBy(uid))
  {
    var c := Claim(os, i, uid);
    FilterCountUpdate(os, i, c[i], IsAvailable);
    FilterCountUpdate(os, i, c[i], DrivenBy(uid));
    forall o | o in Filter(c, IsAvailable) ensures o.id != os[i].id {
      var k :| 0 <= k < |c| && c[k] == o;
      assert k != i;
    }
  }

  /**
   * Creating an order adds exactly that order to the available rows: every order
   * available before still is, and nothing else is added.
   */
  lemma CreatedOrderIsListed(os: seq<Order>, o: Order)
    requires IsAvailable(o)
    ensures multiset(Filter(os + [o], IsAvailable)) == multiset(Filter(os, IsAvailable)) + multiset{o}
  {
    FilterAppend(os, o, IsAvailable);
  }

  /** A claim by an existing user keeps the driver foreign key. */
  lemma ClaimKeepsDriversRegistered(os: seq<Order>, i: nat, uid: int, us: seq<User>)
    requires i < |os| && DriversRegistered(os, us)
    requires exists u :: u in us && u.id == uid
    ensures DriversRegistered(Claim(os, i, uid), us)
  {
  }

  /** Creating an order and deleting one both keep the driver foreign key. */
  lemma CreateAndDeleteKeepDriversRegistered(os: seq<Order>, o: Order, i: nat, us: seq<User>)
    requires i < |os| && DriversRegistered(os, us) && IsAvailable(o)
    ensures DriversRegistered(os + [o], us)
    ensures DriversRegistered(Delete(os, i), us)
  {
  }

  /**
   * Two claims of the same order in a row: when the first is accepted, the second is
   * refused with 409 and the driver stays the first claimant.
   */
  method TakeTwice(table: OrderTable, first: string, second: string, decode: Decoder, orderId: int)
    returns (r1: Reply, r2: Reply)
    requires table.Valid()
    modifies table
    ensures table.Valid()
    ensures r1 == Status(ACCEPTED, ORDER_TAKEN) && second != "" && decode(second).Ok? ==>
      && r2 == Status(CONFLICT, ORDER_ALREADY_TAKEN)
      && decode(first).Ok?
      && exists i :: 0 <= i < |table.orders| && table.orders[i].id == orderId
                     && table.orders[i].driverId == Some(decode(first).claims.userId)
  {
    ghost var before := table.orders;
    r1 := table.TakeOrder(first, decode, orderId);
    ghost var mid := table.orders;
    if r1 == Status(ACCEPTED, ORDER_TAKEN) {
      var i := First(before, WithId(orderId)).value;
      ClaimIsFinal(before, i, decode(first).claims.userId);
    }
    r2 := table.TakeOrder(second, decode, orderId);
    if r1 == Status(ACCEPTED, ORDER_TAKEN) && second != "" && decode(second).Ok? {
      var i := First(before, WithId(orderId)).value;
      assert table.orders == mid;
      assert table.orders[i].id == orderId;
    }
  }

  /**
   * remove_note as written: the filter reads `Order.author_id`, which the Order model does
   * not declare, so once the token decodes and the id is non-zero the lookup itself raises.
   */
  function RemoveNoteAsWritten(token: string, decode: Decoder, noteId: Option<int>): (reply: Reply)
    ensures token != "" && decode(token).Ok? && noteId.Some? && noteId.value != 0 ==> reply == Raised
  {
    if token == "" then Status(UNAUTHORIZED, UNAUTHORIZED_REQUEST)
    else match decode(token)
      case Expired => Status(UNAUTHORIZED, TOKEN_EXPIRED)
      case Malformed => Raised
      case Ok(_) =>
        if noteId.None? || noteId.value == 0 then Status(NOT_FOUND, NOTE_ID_UNDEFINED)
        else Raised
  }

  /** As written, remove_note never deletes anything, not even the caller's own claimed order. */
  lemma RemoveNoteAsWrittenNeverDeletes(token: string, decode: Decoder, noteId: Option<int>)
    ensures !(RemoveNoteAsWritten(token, decode, noteId).Status?
              && RemoveNoteAsWritten(token, decode, noteId).code == ACCEPTED)
  {
  }

  /**
   * The input that shows it: user 7 owns order 1. The corrected lookup finds the order,
   * the handler as written raises instead.
   */
  lemma RemoveNoteCounterexample(o: Order, decode: Decoder)
    requires o.id == 1 && o.driverId == Some(7)
    requires decode("t") == Ok(Claims("driver1", 7, 0))
    ensures First([o], WithIdAndDriver(1, 7)) == Some(0)
    ensures RemoveNoteAsWritten("t", decode, Some(1)) == Raised
  {
  }
}
