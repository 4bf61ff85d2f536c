/** The figures of the admin metrics page, computed from every stored order. */
module Metrics {
  import opened Prelude
  import Orders

  // ---------------------------------------------------------------------------
  // Counting into an object

  /** `acc[k] || 0` */
  function Get(m: map<string, int>, k: string): (r: int)
    ensures k in m ==> r == m[k]
    ensures k !in m ==> r == 0
  {
    if k in m then m[k] else 0
  }

  /** `s.forEach(x => acc[key(x)] = (acc[key(x)] || 0) + weight(x))`
      starting from `{}`. */
  function Tally<T>(s: seq<T>, key: T -> string, weight: T -> int): (r: map<string, int>)
    decreases |s|
  {
    if |s| == 0 then map[]
    else
      Tally(s[..|s| - 1], key, weight)[key(s[|s| - 1]) :=
        Get(Tally(s[..|s| - 1], key, weight), key(s[|s| - 1])) + weight(s[|s| - 1])]
  }

  /** The keys of a tally are exactly the keys of the elements. */
  lemma {:induction false} TallyKeys<T>(s: seq<T>, key: T -> string, weight: T -> int, k: string)
    ensures k in Tally(s, key, weight) <==> exists i :: 0 <= i < |s| && key(s[i]) == k
    decreases |s|
  {
    if |s| > 0 {
      var init := s[..|s| - 1];
      TallyKeys(init, key, weight, k);
      if exists i :: 0 <= i < |init| && key(init[i]) == k {
        var i :| 0 <= i < |init| && key(init[i]) == k;
        assert s[i] == init[i];
      }
      if exists i :: 0 <= i < |s| && key(s[i]) == k {
        var i :| 0 <= i < |s| && key(s[i]) == k;
        if i < |init| {
          assert init[i] == s[i];
        }
      }
    }
  }

  /** The weight `x` contributes to key `k`. */
  function WeightAt<T>(key: T -> string, weight: T -> int, k: string): T -> int {
    (x: T) => if key(x) == k then weight(x) else 0
  }

  /** Each key holds the sum of the weights of the elements with that key. */
  lemma {:induction false} TallyAt<T>(s: seq<T>, key: T -> string, weight: T -> int, k: string)
    ensures Get(Tally(s, key, weight), k) == SumInt(s, WeightAt(key, weight, k))
    decreases |s|
  {
    if |s| > 0 {
      var init := s[..|s| - 1];
      TallyAt(init, key, weight, k);
      assert s == init + [s[|s| - 1]];
      SumIntAppend(init, [s[|s| - 1]], WeightAt(key, weight, k));
    }
  }

  /** An arbitrary key of a non-empty map. */
  ghost function Pick(m: map<string, int>): string
    requires |m| > 0
  {
    var k :| k in m; k
  }

  /** The sum of a map's values. */
  ghost function MapSum(m: map<string, int>): int
    decreases |m|
  {
    if |m| == 0 then 0
    else
      assert Pick(m) in m;
      m[Pick(m)] + MapSum(m - {Pick(m)})
  }

  /** Any key may be taken out first. */
  lemma {:induction false} MapSumRemove(m: map<string, int>, k: string)
    requires k in m
    ensures MapSum(m) == m[k] + MapSum(m - {k})
    decreases |m|
  {
    var j := Pick(m);
    if j != k {
      MapSumRemove(m - {j}, k);
      MapSumRemove(m - {k}, j);
      assert m - {j} - {k} == m - {k} - {j};
    }
  }

  /** Overwriting one key moves the sum by the difference. */
  lemma MapSumUpdate(m: map<string, int>, k: string, v: int)
    ensures MapSum(m[k := v]) == MapSum(m) - Get(m, k) + v
  {
    MapSumRemove(m[k := v], k);
    assert m[k := v] - {k} == m - {k};
    if k in m {
      MapSumRemove(m, k);
    } else {
      assert m - {k} == m;
    }
  }

  /** Nothing is lost or invented: the values add up to the total weight. */
  lemma {:induction false} TallyTotal<T>(s: seq<T>, key: T -> string, weight: T -> int)
    ensures MapSum(Tally(s, key, weight)) == SumInt(s, weight)
    decreases |s|
  {
    if |s| > 0 {
      var init := s[..|s| - 1];
      var x := s[|s| - 1];
      var m := Tally(init, key, weight);
      assert Tally(s, key, weight) == m[key(x) := Get(m, key(x)) + weight(x)];
      TallyTotal(init, key, weight);
      MapSumUpdate(m, key(x), Get(m, key(x)) + weight(x));
      assert s == init + [x];
      SumIntAppend(init, [x], weight);
    }
  }

  /** Counting every element once counts the elements. */
  lemma {:induction false} SumOnes<T>(s: seq<T>, f: T -> int)
    requires forall i :: 0 <= i < |s| ==> f(s[i]) == 1
    ensures SumInt(s, f) == |s|
  {
    if |s| > 0 {
      SumOnes(s[1..], f);
    }
  }

  // ---------------------------------------------------------------------------
  // The metrics

  /** What `fetchMetrics()` returns. */
  datatype Report = Report(
    totalProducts: int,
    totalOrders: int,
    totalRevenue: real,
    avgOrderValue: real,
    ordersByStatus: map<string, int>,
    ordersByPayment: map<string, int>,
    productSales: map<string, int>)

  /** `o.total_amount || 0` */
  function Revenue(o: Orders.Order): real { o.totalAmount.GetOr(0.0) }

  /** `o.payment_method || "transfer"` */
  function PaymentKey(o: Orders.Order): string { OrElse(o.paymentMethod, Orders.DefaultPaymentMethod) }

  function StatusKey(o: Orders.Order): string { o.status }

  function One(o: Orders.Order): int { 1 }

  function ProductKey(it: Orders.OrderItem): string { it.productId }

  function Units(it: Orders.OrderItem): int { it.quantity }

  /** Every item of every order, in order. */
  function AllItems(orders: seq<Orders.Order>): seq<Orders.OrderItem> {
    if |orders| == 0 then [] else orders[0].items + AllItems(orders[1..])
  }

  /** The units in one order. */
  function OrderUnits(o: Orders.Order): int { SumInt(o.items, Units) }

  /** `totalOrders > 0 ? totalRevenue / totalOrders : 0` */
  function Average(total: real, count: int): (r: real)
    ensures count > 0 ==> r * count as real == total
    ensures count <= 0 ==> r == 0.0
  {
    if count > 0 then total / count as real else 0.0
  }

  /** `ordersByStatus` */
  function ByStatus(orders: seq<Orders.Order>): (r: map<string, int>)
    ensures forall k :: k in r <==> exists i :: 0 <= i < |orders| && orders[i].status == k
  {
    assert forall k :: k in Tally(orders, StatusKey, One) <==> exists i :: 0 <= i < |orders| && orders[i].status == k by {
      forall k
        ensures k in Tally(orders, StatusKey, One) <==> exists i :: 0 <= i < |orders| && orders[i].status == k
      {
        TallyKeys(orders, StatusKey, One, k);
      }
    }
    Tally(orders, StatusKey, One)
  }

  /** `ordersByPayment` */
  function ByPayment(orders: seq<Orders.Order>): (r: map<string, int>)
    ensures forall k :: k in r <==> exists i :: 0 <= i < |orders| && PaymentKey(orders[i]) == k
    ensures "" !in r
  {
    assert forall k :: k in Tally(orders, PaymentKey, One) <==> exists i :: 0 <= i < |orders| && PaymentKey(orders[i]) == k by {
      forall k
        ensures k in Tally(orders, PaymentKey, One) <==> exists i :: 0 <= i < |orders| && PaymentKey(orders[i]) == k
      {
        TallyKeys(orders, PaymentKey, One, k);
      }
    }
    assert forall i :: 0 <= i < |orders| ==> PaymentKey(orders[i]) != "";
    Tally(orders, PaymentKey, One)
  }

  /** `productSales` */
  function ProductSales(orders: seq<Orders.Order>): (r: map<string, int>)
    ensures forall k :: k in r <==> exists i :: 0 <= i < |AllItems(orders)| && AllItems(orders)[i].productId == k
  {
    assert forall k :: k in Tally(AllItems(orders), ProductKey, Units) <==>
                       exists i :: 0 <= i < |AllItems(orders)| && AllItems(orders)[i].productId == k by {
      forall k
        ensures k in Tally(AllItems(orders), ProductKey, Units) <==>
                exists i :: 0 <= i < |AllItems(orders)| && AllItems(orders)[i].productId == k
      {
        TallyKeys(AllItems(orders), ProductKey, Units, k);
      }
    }
    Tally(AllItems(orders), ProductKey, Units)
  }

  /** `totalRevenue` */
  function TotalRevenue(orders: seq<Orders.Order>): real {
    SumReal(orders, Revenue)
  }

  /** `fetchMetrics()` over the products' count and the orders read. */
  function FetchMetrics(productCount: nat, orders: seq<Orders.Order>): (r: Report)
    ensures r.totalProducts == productCount && r.totalOrders == |orders|
    ensures r.totalRevenue == TotalRevenue(orders)
    ensures r.avgOrderValue == Average(r.totalRevenue, |orders|)
    ensures |orders| == 0 ==> r.avgOrderValue == 0.0 && r.totalRevenue == 0.0
    ensures r.ordersByStatus == ByStatus(orders) && r.ordersByPayment == ByPayment(orders)
    ensures r.productSales == ProductSales(orders)
  {
    Report(productCount, |orders|, TotalRevenue(orders), Average(TotalRevenue(orders), |orders|),
           ByStatus(orders), ByPayment(orders), ProductSales(orders))
  }

  /** The status counts add up to the number of orders, and so do the
      payment-method counts. */
  lemma CountsAddUp(orders: seq<Orders.Order>)
    ensures MapSum(ByStatus(orders)) == |orders|
    ensures MapSum(ByPayment(orders)) == |orders|
  {
    TallyTotal(orders, StatusKey, One);
    TallyTotal(orders, PaymentKey, One);
    SumOnes(orders, One);
  }

  /** The number of orders with each status. */
  lemma StatusCount(orders: seq<Orders.Order>, status: string)
    ensures Get(ByStatus(orders), status) ==
            SumInt(orders, (o: Orders.Order) => if o.status == status then 1 else 0)
  {
    TallyAt(orders, StatusKey, One, status);
    forall i | 0 <= i < |orders|
      ensures WeightAt(StatusKey, One, status)(orders[i]) == if orders[i].status == status then 1 else 0
    {
      assert WeightAt(StatusKey, One, status)(orders[i]) == (if StatusKey(orders[i]) == status then One(orders[i]) else 0);
    }
    SumIntPointwise(orders, WeightAt(StatusKey, One, status),
                    (o: Orders.Order) => if o.status == status then 1 else 0);
  }

  /** An order without a payment method is counted as a transfer. */
  lemma MissingPaymentIsTransfer(orders: seq<Orders.Order>)
    ensures Get(ByPayment(orders), Orders.DefaultPaymentMethod) ==
            SumInt(orders, (o: Orders.Order) =>
              if o.paymentMethod == "" || o.paymentMethod == Orders.DefaultPaymentMethod then 1 else 0)
  {
    TallyAt(orders, PaymentKey, One, Orders.DefaultPaymentMethod);
    forall i | 0 <= i < |orders|
      ensures WeightAt(PaymentKey, One, Orders.DefaultPaymentMethod)(orders[i]) ==
              if orders[i].paymentMethod == "" || orders[i].paymentMethod == Orders.DefaultPaymentMethod then 1 else 0
    {
      assert WeightAt(PaymentKey, One, Orders.DefaultPaymentMethod)(orders[i]) ==
             (if PaymentKey(orders[i]) == Orders.DefaultPaymentMethod then One(orders[i]) else 0);
    }
    SumIntPointwise(orders, WeightAt(PaymentKey, One, Orders.DefaultPaymentMethod),
                    (o: Orders.Order) =>
                      if o.paymentMethod == "" || o.paymentMethod == Orders.DefaultPaymentMethod then 1 else 0);
  }

  lemma {:induction false} AllItemsUnits(orders: seq<Orders.Order>)
    ensures SumInt(AllItems(orders), Units) == SumInt(orders, OrderUnits)
  {
    if |orders| > 0 {
      AllItemsUnits(orders[1..]);
      SumIntAppend(orders[0].items, AllItems(orders[1..]), Units);
    }
  }

  /** The product sales add up to every unit of every order. */
  lemma SalesAddUp(orders: seq<Orders.Order>)
    ensures MapSum(ProductSales(orders)) == SumInt(orders, OrderUnits)
  {
    TallyTotal(AllItems(orders), ProductKey, Units);
    AllItemsUnits(orders);
  }

  /** Revenue takes every order whatever its status: one more order, even a
      cancelled one, adds its total, and one with no total adds nothing. */
  lemma RevenueCountsEveryStatus(orders: seq<Orders.Order>, o: Orders.Order)
    ensures TotalRevenue(orders + [o]) == TotalRevenue(orders) + o.totalAmount.GetOr(0.0)
    ensures o.totalAmount.None? ==> TotalRevenue(orders + [o]) == TotalRevenue(orders)
  {
    SumRealAppend(orders, [o], Revenue);
  }
}
