/**
 * Order pricing: the cost of a line item, the subtotal of an order, the
 * discount amount and the total. Amounts are exact (`real` stands for the
 * exact decimal arithmetic of the source); a stored price is a whole number
 * of cents, as a decimal column with two places holds it.
 */
module Orders {
  import opened Wrappers

  /** A line item: the price (in cents) and the quantity captured when the order was placed. */
  datatype OrderItem = OrderItem(productId: int, priceCents: int, quantity: int)

  /**
   * An order: its items, the coupon it was placed with, if any (a nullable
   * reference by id), and the snapshot of the discount percentage.
   */
  datatype Order = Order(items: seq<OrderItem>, coupon: Option<int>, discount: int, paid: bool)

  /** The largest quantity a positive-integer column stores. */
  const MaxQuantity := 2147483647

  /** A price of at most ten digits, two of them after the point, as the column holds. */
  const PriceCentsBound := 10_000_000_000

  /**
   * The constraints the columns put on a line item: a price of at most ten
   * digits with two after the point, and a quantity a positive-integer
   * column stores. The column does not forbid a negative price; the
   * non-negative price is an assumption added here.
   */
  predicate ItemValid(item: OrderItem)
    ensures ItemValid(item) ==> 0.0 <= Price(item) < 100_000_000.0
  {
    0 <= item.priceCents < PriceCentsBound && 0 <= item.quantity <= MaxQuantity
  }

  /** All items valid and the discount within the validators' range 0..100. */
  predicate OrderValid(o: Order)
    ensures OrderValid(o) ==> 0.0 <= o.discount as real / 100.0 <= 1.0
  {
    (forall i :: 0 <= i < |o.items| ==> ItemValid(o.items[i])) && 0 <= o.discount <= 100
  }

  function Price(item: OrderItem): (r: real) {
    item.priceCents as real / 100.0
  }

  /** `OrderItem.get_cost`: the price times the quantity. */
  function ItemCost(item: OrderItem): (r: real)
    ensures 0 <= item.priceCents && 0 <= item.quantity ==> 0.0 <= r
    ensures item.quantity == 0 ==> r == 0.0
  {
    Price(item) * item.quantity as real
  }

  /** `n` copies of the price added up: the reference meaning of a price times a quantity. */
  function RepeatedPrice(price: real, n: nat): (r: real) {
    if n == 0 then 0.0 else RepeatedPrice(price, n - 1) + price
  }

  /** A line item costs its price added up as many times as its quantity. */
  lemma {:induction false} ItemCostIsRepeatedPrice(item: OrderItem)
    requires 0 <= item.quantity
    ensures ItemCost(item) == RepeatedPrice(Price(item), item.quantity)
  {
    RepeatedPriceIsProduct(Price(item), item.quantity);
  }

  lemma {:induction false} RepeatedPriceIsProduct(price: real, n: nat)
    ensures RepeatedPrice(price, n) == price * n as real
  {
    if n > 0 {
      RepeatedPriceIsProduct(price, n - 1);
      assert price * n as real == price * (n - 1) as real + price;
    }
  }

  /**
   * `Order.get_total_cost_before_discount`: the sum of the item costs,
   * accumulated from the first item to the last, 0 for no items.
   */
  function Subtotal(items: seq<OrderItem>): (r: real)
    ensures items == [] ==> r == 0.0
    ensures (forall i :: 0 <= i < |items| ==> 0 <= items[i].priceCents && 0 <= items[i].quantity) ==> 0.0 <= r
  {
    if items == [] then 0.0 else Subtotal(items[..|items| - 1]) + ItemCost(items[|items| - 1])
  }

  /** The subtotal of two runs of items is the sum of their subtotals. */
  lemma {:induction false} SubtotalAppend(a: seq<OrderItem>, b: seq<OrderItem>)
    ensures Subtotal(a + b) == Subtotal(a) + Subtotal(b)
  {
    if b == [] {
      assert a + b == a;
    } else {
      var b' := b[..|b| - 1];
      assert (a + b)[..|a + b| - 1] == a + b';
      SubtotalAppend(a, b');
    }
  }

  /** Taking one item out of a list lowers the subtotal by that item's cost. */
  lemma {:induction false} SubtotalRemoveAt(t: seq<OrderItem>, k: int)
    requires 0 <= k < |t|
    ensures Subtotal(t) == Subtotal(t[..k] + t[k + 1..]) + ItemCost(t[k])
  {
    var n := |t| - 1;
    var rest := t[..k] + t[k + 1..];
    if k == n {
      assert rest == t[..n];
    } else {
      var u := t[..n];
      SubtotalRemoveAt(u, k);
      assert u[k] == t[k];
      assert rest[..|rest| - 1] == u[..k] + u[k + 1..];
      assert rest[|rest| - 1] == t[n];
    }
  }

  /** Taking one item out of a list takes it out of the list's multiset. */
  lemma MultisetRemoveAt(t: seq<OrderItem>, k: int)
    requires 0 <= k < |t|
    ensures multiset(t[..k] + t[k + 1..]) == multiset(t) - multiset{t[k]}
  {
    var front, back := t[..k], t[k + 1..];
    assert t == front + [t[k]] + back;
    assert multiset(t) == multiset(front) + multiset{t[k]} + multiset(back);
  }

  /** The subtotal does not depend on the order in which the items are listed. */
  lemma {:induction false} SubtotalPermutation(s: seq<OrderItem>, t: seq<OrderItem>)
    requires multiset(s) == multiset(t)
    ensures Subtotal(s) == Subtotal(t)
    decreases |s|
  {
    if s == [] {
      assert |t| == |multiset(t)| == 0;
    } else {
      var s' := s[..|s| - 1];
      var x := s[|s| - 1];
      assert s == s' + [x];
      assert multiset(s') == multiset(s) - multiset{x};
      assert x in multiset(t);
      var k :| 0 <= k < |t| && t[k] == x;
      SubtotalRemoveAt(t, k);
      MultisetRemoveAt(t, k);
      SubtotalPermutation(s', t[..k] + t[k + 1..]);
    }
  }

  /** The subtotal in whole cents. */
  function SubtotalCents(items: seq<OrderItem>): (r: int) {
    if items == [] then 0 else SubtotalCents(items[..|items| - 1]) + items[|items| - 1].priceCents * items[|items| - 1].quantity
  }

  /** The subtotal is a whole number of cents. */
  lemma {:induction false} SubtotalIsCents(items: seq<OrderItem>)
    ensures Subtotal(items) == SubtotalCents(items) as real / 100.0
  {
    if items != [] {
      SubtotalIsCents(items[..|items| - 1]);
      var last := items[|items| - 1];
      assert ItemCost(last) == (last.priceCents * last.quantity) as real / 100.0;
    }
  }

  /** `Order.get_discount_amount`: the subtotal times the percentage, when the percentage is positive. */
  function DiscountAmount(o: Order): (r: real)
    ensures o.discount <= 0 ==> r == 0.0
    ensures 0 < o.discount ==> r * 100.0 == Subtotal(o.items) * o.discount as real
    ensures OrderValid(o) ==> 0.0 <= r <= Subtotal(o.items)
  {
    if o.discount > 0 then
      var s := Subtotal(o.items);
      var d := o.discount as real / 100.0;
      assert OrderValid(o) ==> s * d <= s by {
        if OrderValid(o) {
          assert 0.0 <= s && d <= 1.0;
          assert s * (1.0 - d) >= 0.0;
        }
      }
      s * d
    else
      0.0
  }

  /** `Order.get_total_cost`: the subtotal less the discount amount. */
  function Total(o: Order): (r: real)
    ensures r == Subtotal(o.items) - DiscountAmount(o)
    ensures o.discount <= 0 ==> r == Subtotal(o.items)
    ensures OrderValid(o) ==> 0.0 <= r <= Subtotal(o.items)
  {
    Subtotal(o.items) - DiscountAmount(o)
  }

  /** With a percentage in 0..100 the total is the subtotal times the part that is not discounted. */
  lemma TotalIsRemainingShare(o: Order)
    requires 0 <= o.discount
    ensures Total(o) == Subtotal(o.items) * (100 - o.discount) as real / 100.0
  {
  }

  /** The discount amount is an exact multiple of a hundredth of a cent. */
  lemma DiscountInHundredthsOfCents(o: Order)
    requires 0 < o.discount
    ensures DiscountAmount(o) == (SubtotalCents(o.items) * o.discount) as real / 10000.0
  {
    SubtotalIsCents(o.items);
  }

  /** A larger discount never gives a larger total. */
  lemma TotalMonotoneInDiscount(o: Order, d1: int, d2: int)
    requires forall i :: 0 <= i < |o.items| ==> ItemValid(o.items[i])
    requires d1 <= d2
    ensures Total(o.(discount := d2)) <= Total(o.(discount := d1))
  {
    var s := Subtotal(o.items);
    assert 0.0 <= s;
    var e1 := if d1 > 0 then d1 else 0;
    var e2 := if d2 > 0 then d2 else 0;
    assert DiscountAmount(o.(discount := d1)) * 100.0 == s * e1 as real;
    assert DiscountAmount(o.(discount := d2)) * 100.0 == s * e2 as real;
    assert s * e2 as real - s * e1 as real == s * (e2 - e1) as real;
    assert 0.0 <= s * (e2 - e1) as real;
  }

  /** The three amounts read only the items and the discount: the coupon reference does not enter. */
  lemma PricingIgnoresCoupon(o: Order, coupon: Option<int>)
    ensures Subtotal(o.(coupon := coupon).items) == Subtotal(o.items)
    ensures DiscountAmount(o.(coupon := coupon)) == DiscountAmount(o)
    ensures Total(o.(coupon := coupon)) == Total(o)
  {
  }

  /** What deleting a coupon does to an order that refers to it: the reference becomes null (SET_NULL). */
  function CouponDeleted(o: Order, couponId: int): (r: Order)
    ensures r.coupon == if o.coupon == Some(couponId) then None else o.coupon
    ensures r.items == o.items && r.discount == o.discount && r.paid == o.paid
  {
    if o.coupon == Some(couponId) then o.(coupon := None) else o
  }

  /** Deleting a coupon leaves the amounts of every order unchanged. */
  lemma SnapshotStable(orders: seq<Order>, couponId: int)
    ensures forall i :: 0 <= i < |orders| ==>
      Subtotal(CouponDeleted(orders[i], couponId).items) == Subtotal(orders[i].items)
      && DiscountAmount(CouponDeleted(orders[i], couponId)) == DiscountAmount(orders[i])
      && Total(CouponDeleted(orders[i], couponId)) == Total(orders[i])
  {
  }

  /** Two items at 25.00 x 2 and 15.00 x 1 with a 20% discount: 65.00, 13.00 and 52.00. */
  lemma WorkedExample()
    ensures var o := Order([OrderItem(1, 2500, 2), OrderItem(2, 1500, 1)], Some(1), 20, false);
      Subtotal(o.items) == 65.0 && DiscountAmount(o) == 13.0 && Total(o) == 52.0
  {
  }
}
