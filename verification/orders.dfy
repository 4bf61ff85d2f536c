/** The order records of the orders service: what `createOrder` stores for
    a payload, what `updateOrderStatus` writes, and the fallback ordering of a
    user's orders. */
module Orders {
  import opened Prelude
  import opened Shipping
  import Sorting

  /** A server timestamp, as milliseconds; only its order matters here. */
  type Timestamp = int

  /** A purchased line as stored in an order. */
  datatype OrderItem = OrderItem(productId: string, name: string, quantity: int, price: Option<real>)

  /** What a caller hands to `createOrder`. A falsy `user_id` is `None` or
      `Some("")`; a falsy `payment_method` is `""`. */
  datatype Payload = Payload(
    customerName: string,
    customerEmail: string,
    userId: Option<string>,
    items: seq<OrderItem>,
    totalAmount: Option<real>,
    shippingCost: real,
    shippingAddress: Address,
    shippingZone: string,
    paymentMethod: string,
    status: Option<string>)

  /** A stored order document. */
  datatype Order = Order(
    customerName: string,
    customerEmail: string,
    userId: Option<string>,
    items: seq<OrderItem>,
    totalAmount: Option<real>,
    shippingCost: real,
    shippingAddress: Address,
    shippingZone: string,
    paymentMethod: string,
    status: string,
    createdAt: Timestamp,
    updatedAt: Option<Timestamp>,
    trackingNumber: Option<string>)

  const Pending: string := "pending"
  const DefaultPaymentMethod: string := "transfer"

  /** `payload.user_id || null` */
  function TruthyUserId(u: Option<string>): (r: Option<string>)
    ensures r.Some? <==> u.Some? && u.value != ""
    ensures r.Some? ==> r == u
  {
    if u.Some? && u.value != "" then u else None
  }

  /** The document `createOrder(payload)` adds, stamped at `now`. */
  function CreateOrder(p: Payload, now: Timestamp): (o: Order)
    ensures o.status == Pending
    ensures o.createdAt == now && o.updatedAt.None? && o.trackingNumber.None?
    ensures o.paymentMethod == (if p.paymentMethod == "" then DefaultPaymentMethod else p.paymentMethod)
    ensures o.userId == TruthyUserId(p.userId)
    ensures o.customerName == p.customerName && o.customerEmail == p.customerEmail
    ensures o.items == p.items && o.totalAmount == p.totalAmount && o.shippingCost == p.shippingCost
    ensures o.shippingAddress == p.shippingAddress && o.shippingZone == p.shippingZone
  {
    Order(p.customerName, p.customerEmail, TruthyUserId(p.userId), p.items, p.totalAmount,
          p.shippingCost, p.shippingAddress, p.shippingZone,
          OrElse(p.paymentMethod, DefaultPaymentMethod), Pending, now, None, None)
  }

  /** The outcome of `addDoc`: the store is opened without
      `ignoreUndefinedProperties`, so a document with an `undefined` field is
      refused and `createOrder` throws. The only such field a payload can
      carry here is the `price` of an item whose product has none. */
  datatype Write = Stored(order: Order) | Rejected

  /** Every item of the payload has a defined price. */
  predicate PricesDefined(items: seq<OrderItem>) {
    forall i :: 0 <= i < |items| ==> items[i].price.Some?
  }

  /** What the store answers to a document it can encode: it may still
      refuse the write (security rules, the network). Which answer comes is
      decided outside the program, so it is a parameter. */
  datatype StoreAnswer = Accepts | Fails

  /** `createOrder(payload)` as the store sees it: `addDoc` has no `catch`,
      so either refusal reaches the caller. */
  function AddOrder(p: Payload, now: Timestamp, answer: StoreAnswer): (r: Write)
    ensures r.Stored? <==> answer == Accepts && forall i :: 0 <= i < |p.items| ==> p.items[i].price.Some?
    ensures r.Rejected? <==> answer == Fails || exists i :: 0 <= i < |p.items| && p.items[i].price.None?
    ensures r.Stored? ==> r.order == CreateOrder(p, now)
  {
    match answer
    case Fails => Rejected
    case Accepts => if PricesDefined(p.items) then Stored(CreateOrder(p, now)) else Rejected
  }

  /** Whatever status a payload carries, the stored order is pending. */
  lemma StatusAlwaysForced(p: Payload, s: string, now: Timestamp)
    ensures CreateOrder(p.(status := Some(s)), now) == CreateOrder(p.(status := None), now)
  {
  }

  /** `tracking_number` is only written when the argument is truthy. */
  function TrackingAfter(current: Option<string>, argument: Option<string>): (r: Option<string>)
    ensures argument.Some? && argument.value != "" ==> r == argument
    ensures argument.None? || argument.value == "" ==> r == current
  {
    if argument.Some? && argument.value != "" then argument else current
  }

  /** `updateOrderStatus(id, status, trackingNumber)` applied to the stored
      order at `now`: no check of the current status, no transition rules. */
  function UpdateOrderStatus(o: Order, status: string, tracking: Option<string>, now: Timestamp): (r: Order)
    ensures r.status == status
    ensures r.updatedAt == Some(now)
    ensures r.trackingNumber == TrackingAfter(o.trackingNumber, tracking)
    ensures r.(status := o.status, updatedAt := o.updatedAt, trackingNumber := o.trackingNumber) == o
  {
    o.(status := status, updatedAt := Some(now), trackingNumber := TrackingAfter(o.trackingNumber, tracking))
  }

  /** Any status can follow any other, including leaving a terminal one. */
  lemma NoTransitionRules(o: Order, now: Timestamp)
    requires o.status == "delivered" || o.status == "cancelled"
    ensures UpdateOrderStatus(o, Pending, None, now).status == Pending
    ensures UpdateOrderStatus(o, Pending, None, now).trackingNumber == o.trackingNumber
  {
  }

  function CreatedKey(o: Order): real { o.createdAt as real }

  /** The fallback of `fetchUserOrders(userId)`: the user's orders, newest
      first, sorted on the client. */
  function FetchUserOrdersFallback(orders: seq<Order>, userId: string): (r: seq<Order>)
    ensures Sorting.Descending(r, CreatedKey)
    ensures multiset(r) == multiset(Filter(orders, (o: Order) => o.userId == Some(userId)))
  {
    Sorting.SortDescending(Filter(orders, (o: Order) => o.userId == Some(userId)), CreatedKey)
  }

  /** The fallback lists exactly the user's orders. */
  lemma FallbackListsTheUsersOrders(orders: seq<Order>, userId: string)
    ensures forall i :: 0 <= i < |FetchUserOrdersFallback(orders, userId)| ==>
              FetchUserOrdersFallback(orders, userId)[i].userId == Some(userId)
    ensures forall i :: 0 <= i < |orders| && orders[i].userId == Some(userId) ==>
              orders[i] in FetchUserOrdersFallback(orders, userId)
  {
    var mine := Filter(orders, (o: Order) => o.userId == Some(userId));
    Sorting.SameElements(FetchUserOrdersFallback(orders, userId), mine);
  }
}
