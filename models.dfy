/**
 * The two persisted records, `users` and `orders`, with the column defaults the
 * declarations fix, and the table-wide facts the declarations imply
 * (primary keys, the driver foreign key, the User.orders relationship).
 */
module Models {
  import opened Wrappers
  import opened Queries

  /** Instants, in seconds. */
  type Timestamp = int
  /** A latitude or longitude: a float that is stored and returned, never computed with. */
  type Coordinate = real
  /** The output of the password hasher. */
  type Digest = string

  const DEFAULT_ROLE: string := "driver"

  datatype User = User(
    id: int,
    login: string,
    role: string,
    password: Digest,
    createdAt: Timestamp)

  datatype Order = Order(
    id: int,
    title: string,
    addresFrom: string,
    addresTo: string,
    description: string,
    requiredLoaders: int,
    rigging: bool,
    disassembly: bool,
    latitude: Coordinate,
    longitude: Coordinate,
    driverId: Option<int>,
    createdAt: Timestamp)

  /** A user row as inserted: the role and created_at columns take their defaults. */
  function NewUser(id: int, login: string, password: Digest, now: Timestamp): (u: User)
    ensures u.role == DEFAULT_ROLE && u.createdAt == now
    ensures u.id == id && u.login == login && u.password == password
  {
    User(id, login, DEFAULT_ROLE, password, now)
  }

  /** An order row as inserted: driver_id takes its default NULL, so the order starts out available. */
  function NewOrder(id: int, title: string, addresFrom: string, addresTo: string, description: string,
                    requiredLoaders: int, rigging: bool, disassembly: bool,
                    latitude: Coordinate, longitude: Coordinate, now: Timestamp): (o: Order)
    ensures IsAvailable(o) && o.createdAt == now
    ensures o.id == id && o.title == title && o.description == description
    ensures o.addresFrom == addresFrom && o.addresTo == addresTo
    ensures o.requiredLoaders == requiredLoaders && o.rigging == rigging && o.disassembly == disassembly
    ensures o.latitude == latitude && o.longitude == longitude
  {
    Order(id, title, addresFrom, addresTo, description, requiredLoaders, rigging, disassembly,
          latitude, longitude, None, now)
  }

  /** An order is available while nobody has claimed it. */
  predicate IsAvailable(o: Order) {
    o.driverId.None?
  }

  /** The order is claimed by the user with id `uid`. */
  function DrivenBy(uid: int): Order -> bool {
    (o: Order) => o.driverId == Some(uid)
  }

  /** The `orders` relationship of a user: the orders whose driver_id is that user's id. */
  function OrdersOf(u: User, orders: seq<Order>): (r: seq<Order>)
    ensures forall o :: o in r <==> o in orders && o.driverId == Some(u.id)
  {
    Filter(orders, DrivenBy(u.id))
  }

  /** `orders.id` is a primary key. */
  predicate UniqueOrderIds(os: seq<Order>) {
    forall i, j :: 0 <= i < j < |os| ==> os[i].id != os[j].id
  }

  /** `users.id` is a primary key. */
  predicate UniqueUserIds(us: seq<User>) {
    forall i, j :: 0 <= i < j < |us| ==> us[i].id != us[j].id
  }

  /** No two orders share a (title, description) pair. */
  predicate UniquePairs(os: seq<Order>) {
    forall i, j :: 0 <= i < j < |os| ==>
      os[i].title != os[j].title || os[i].description != os[j].description
  }

  /** No two users share a login. */
  predicate UniqueLogins(us: seq<User>) {
    forall i, j :: 0 <= i < j < |us| ==> us[i].login != us[j].login
  }

  /** The foreign key `orders.driver_id -> users.id`: every set driver_id names an existing user. */
  predicate DriversRegistered(os: seq<Order>, us: seq<User>) {
    forall o :: o in os && o.driverId.Some? ==> exists u :: u in us && u.id == o.driverId.value
  }

  /**
   * Under the foreign key and the users' primary key, every claimed order belongs to
   * the `orders` of exactly one user: its driver.
   */
  lemma ClaimedOrderHasOneDriver(os: seq<Order>, us: seq<User>, o: Order)
    requires DriversRegistered(os, us) && UniqueUserIds(us)
    requires o in os && o.driverId.Some?
    ensures exists u :: u in us && o in OrdersOf(u, os)
    ensures forall u, v :: u in us && v in us && o in OrdersOf(u, os) && o in OrdersOf(v, os) ==> u == v
  {
  }
}
