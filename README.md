# Flower shop: order pricing and coupon redemption

A Dafny model of the two pieces of business logic in the flower shop's
Django project:

- **Order pricing** (`orders/models.py`). An order holds line items, each
  a price snapshot and a quantity, and an integer discount percentage
  snapshot. A line item costs price times quantity. The subtotal is the sum
  of the item costs. The discount amount is `subtotal * discount / 100`
  when the discount is positive, and 0 otherwise. The total is the
  subtotal less the discount amount. Pricing reads the items and the
  discount snapshot only, never the linked coupon.
- **Coupons** (`coupons/models.py`). A coupon has a code of up to 50
  characters, a validity window, a discount percentage in 0..100 and an
  `active` flag. The field validators and the unique `code` column
  declare these constraints. The model assumes that every stored coupon
  passed full validation (`full_clean`) before it was saved.
- **Coupon redemption** (`coupons/views.py`). `coupon_apply` looks the
  submitted code up ignoring case. The coupon must also be active, and the
  current time must lie in its window, both ends included. On success the
  view stores the coupon's id under the session key `coupon_id`. On a
  failed lookup it sets the key to `None`. `coupon_remove` clears the key
  when it holds a coupon.

Files:

- `wrappers.dfy`: `Option` and `Result`.
- `ascii_case.dfy`: the case-insensitive comparison of `iexact`, as ASCII
  folding.
- `coupons.dfy`: the coupon record, the table's invariants, and the field
  validation of a new coupon.
- `coupon_views.dfy`: the lookup, and the session as a class `Session`.
  Its `couponId` field is the `coupon_id` key and its `others` field holds
  the other session keys. The methods `CouponApply` and `CouponRemove`
  update the session in place. Each is proved against a pure function
  (`AfterApply`, `AfterRemove`), and the properties are proved about those
  functions.
- `orders.dfy`: the pricing functions. Amounts are Dafny `real`, which is
  exact like the source's `Decimal` here. A stored price is a whole number
  of cents.

Time is an integer clock. The current time (`timezone.now()`) and the
form's verdict (`CouponApplyForm.is_valid()`) are parameters of
`CouponApply`.

Three modelling choices follow the code where a reader might expect
otherwise:

- A line item's quantity is a `PositiveIntegerField`, which admits 0. The
  model allows quantity 0, not only quantities of 1 or more.
- Removing a coupon when none is set shows no message in the code
  (`if coupon_id:` guards the success message). `CouponRemove` reports
  `removed == false` in that case.
- On a case-sensitive collation such as SQLite's or PostgreSQL's default,
  the uniqueness of `code` is exact, while the lookup ignores case. The
  model takes that collation; the database settings are not part of this
  model. See "## Findings".

## Model

| member | source | states |
|---|---|---|
| `Orders.ItemValid` | flower_shop_project2/orders/models.py:56-57 | a price below 10^8 with two places and a quantity in 0..2147483647; the price is assumed non-negative, which the column does not enforce |
| `Orders.OrderValid` | flower_shop_project2/orders/models.py:25-27 | the discount lies in 0..100, so the discount factor lies in 0..1, and every item is valid |
| `Orders.ItemCost` | flower_shop_project2/orders/models.py:62-63 | a line item with non-negative price and quantity has a non-negative cost; a zero quantity costs 0 |
| `Orders.ItemCostIsRepeatedPrice` | flower_shop_project2/orders/models.py:62-63 | the cost of a line item equals its price added up `quantity` times |
| `Orders.Subtotal` | flower_shop_project2/orders/models.py:38-40 | an order with no items has subtotal 0; items with non-negative prices and quantities give a non-negative subtotal |
| `Orders.SubtotalAppend` | flower_shop_project2/orders/models.py:38-40 | the subtotal of two runs of items is the sum of their subtotals |
| `Orders.SubtotalPermutation` | flower_shop_project2/orders/models.py:38-40 | any two listings of the same items (same multiset) have the same subtotal, so the unordered `items.all()` gives a well-defined sum |
| `Orders.SubtotalIsCents` | flower_shop_project2/orders/models.py:38-63 | the subtotal is an exact whole number of cents: the sum of price-in-cents times quantity, divided by 100 |
| `Orders.DiscountAmount` | flower_shop_project2/orders/models.py:42-46 | a discount of 0 or less gives amount 0; a positive discount gives subtotal times discount / 100; for a valid order (discount in 0..100, non-negative items) the amount lies between 0 and the subtotal |
| `Orders.DiscountInHundredthsOfCents` | flower_shop_project2/orders/models.py:42-46 | a positive discount amount is exact to a hundredth of a cent: subtotal-in-cents times percentage over 10000 |
| `Orders.Total` | flower_shop_project2/orders/models.py:48-51 | the total is subtotal minus discount amount; with discount 0 or less it is the subtotal; for a valid order it lies between 0 and the subtotal |
| `Orders.TotalIsRemainingShare` | flower_shop_project2/orders/models.py:42-51 | for a percentage of 0 or more, the total is subtotal times (100 - discount) / 100 |
| `Orders.TotalMonotoneInDiscount` | flower_shop_project2/orders/models.py:42-51 | for valid items, a larger discount never gives a larger total |
| `Orders.PricingIgnoresCoupon` | flower_shop_project2/orders/models.py:19-51 | changing or nulling the coupon reference leaves subtotal, discount amount and total unchanged |
| `Orders.CouponDeleted` | flower_shop_project2/orders/models.py:19-24 | deleting a coupon nulls the reference only of orders that point to it, and leaves items, discount and paid flag as they were |
| `Orders.SnapshotStable` | flower_shop_project2/orders/models.py:19-51 | after a coupon is deleted, every order keeps its subtotal, discount amount and total |
| `Orders.WorkedExample` | flower_shop_project2/orders/models.py:38-51 | items 25.00 x 2 and 15.00 x 1 with discount 20 give subtotal 65, discount amount 13 and total 52 |
| `Coupons.WellFormed` | flower_shop_project2/coupons/models.py:6-12 | a saved coupon has a positive id, a code (its string form) of 1 to 50 characters and a discount in 0..100 |
| `Coupons.CodesUnique` | flower_shop_project2/coupons/models.py:6 | no two rows have exactly the same code: rows with equal codes are the same row |
| `Coupons.StoreValid` | flower_shop_project2/coupons/models.py:5-13 | every row is well-formed, ids are distinct and codes are exactly unique; every coupon in the table has a positive id and a discount in 0..100 |
| `Coupons.ToString` | flower_shop_project2/coupons/models.py:19-20 | the string form of a coupon is its code |
| `Coupons.ToStringIdentifies` | flower_shop_project2/coupons/models.py:6-20 | the string form of a coupon is its code, so in a valid table two coupons with the same string form are the same coupon |
| `Coupons.FieldErrors` | flower_shop_project2/coupons/models.py:6-12 | the field validators report a blank code iff it is empty, a too-long code iff it exceeds 50 characters, a discount below 0 iff it is negative and above 100 iff it exceeds 100 |
| `Coupons.Validate` | flower_shop_project2/coupons/models.py:6-12 | a new coupon is accepted iff its code has 1 to 50 characters, its discount is in 0..100 and no coupon has exactly the same code |
| `Coupons.Create` | flower_shop_project2/coupons/models.py:5-13 | saving is refused with exactly the validation errors, or appends one coupon with the given fields and a fresh id; saving keeps the table valid (well-formed coupons, distinct ids, distinct codes) |
| `Coupons.NewCoupon` | flower_shop_project2/coupons/models.py:5-13 | a new coupon's id is positive and larger than every id in use |
| `Coupons.AppendKeepsStoreValid` | flower_shop_project2/coupons/models.py:5-13 | appending a well-formed coupon with a fresh id and an unused code keeps the table valid |
| `Coupons.IgnoringCaseImpliesExact` | flower_shop_project2/coupons/models.py:6 | codes unique up to case are unique exactly |
| `Coupons.ValidateIgnoringCase` | flower_shop_project2/coupons/models.py:6-12 | corrected validation: a new coupon is accepted iff the field rules hold and no code matches it ignoring case |
| `Coupons.CreateIgnoringCase` | flower_shop_project2/coupons/models.py:5-13 | corrected saving: keeps the table valid and keeps codes unique up to case |
| `Coupons.AppendKeepsCodesUniqueIgnoringCase` | flower_shop_project2/coupons/models.py:6 | appending a coupon whose code is unused up to case keeps codes unique up to case |
| `AsciiCase.EqualIgnoringCaseCharwise` | flower_shop_project2/coupons/views.py:16 | two codes are equal ignoring case iff they have the same length and agree letter by letter after folding |
| `AsciiCase.EqualIgnoringCaseIsEquivalence` | flower_shop_project2/coupons/views.py:16 | comparing ignoring case is reflexive, symmetric and transitive |
| `AsciiCase.LowerIdempotent` | flower_shop_project2/coupons/views.py:16 | folding a code twice is folding it once |
| `AsciiCase.SpringCodeMatchesLowerCase` | flower_shop_project2/coupons/views.py:16 | "SPRING10" matches "spring10" and does not match "spring1" |
| `CouponViews.Redeemable` | flower_shop_project2/coupons/views.py:16-19 | the four-part test: code equal ignoring case, `valid_from <= now`, `now <= valid_to`, active; a coupon that passes it has a non-empty window (`valid_from <= valid_to`) |
| `CouponViews.Matching` | flower_shop_project2/coupons/views.py:16-19 | a coupon is selected iff it is in the table, its code equals the submitted code ignoring case, `valid_from <= now <= valid_to` and it is active |
| `CouponViews.Get` | flower_shop_project2/coupons/views.py:16-22 | on any table: DoesNotExist iff no row passes the test, MultipleObjectsReturned iff two different rows pass it, and otherwise Found with the one row of the table that passes |
| `CouponViews.TwoMatchesHaveTwoRows` | flower_shop_project2/coupons/views.py:16-19 | when the filter selects two or more rows, two different positions of the table pass the test |
| `CouponViews.TwoRowsHaveTwoMatches` | flower_shop_project2/coupons/views.py:16-19 | when two different positions of the table pass the test, the filter selects at least two rows |
| `CouponViews.MatchingAtMostOne` | flower_shop_project2/coupons/views.py:16-19 | with codes unique up to case at most one coupon passes the test |
| `CouponViews.RedeemableUnique` | flower_shop_project2/coupons/views.py:16-19 | with codes unique up to case, two table rows that pass the test are the same row |
| `CouponViews.GetUnambiguous` | flower_shop_project2/coupons/views.py:16-22 | with codes unique up to case the lookup never raises MultipleObjectsReturned, and it finds coupon c iff c is in the table and passes the test |
| `CouponViews.ExactUniquenessAdmitsAmbiguousLookup` | flower_shop_project2/coupons/views.py:16-19 | a table valid under exact uniqueness, holding "SPRING10" and "spring10", makes the lookup of "Spring10" raise MultipleObjectsReturned |
| `CouponViews.AfterApply` | flower_shop_project2/coupons/views.py:10-26 | an invalid form leaves `coupon_id` unchanged; a valid form stores some id iff a coupon passes the test, and then it is that coupon's id; otherwise `coupon_id` is None; a valid session stays valid |
| `CouponViews.FailedLookupClears` | flower_shop_project2/coupons/views.py:22-23 | when every coupon has a wrong code, is not yet valid, has expired or is inactive, `coupon_id` becomes None |
| `CouponViews.WindowInclusive` | flower_shop_project2/coupons/views.py:17-18 | an active coupon with the matching code is accepted at `valid_from` and at `valid_to`, and refused one instant before and one instant after |
| `CouponViews.AfterRemove` | flower_shop_project2/coupons/views.py:33-35 | removing clears a stored coupon id; a value that is None (or otherwise false) is left as it was; afterwards nothing is stored |
| `CouponViews.RemoveIdempotent` | flower_shop_project2/coupons/views.py:33-35 | removing twice is removing once, and the second removal finds nothing to remove |
| `CouponViews.Session.CouponApply` | flower_shop_project2/coupons/views.py:10-26 | the new `couponId` is `AfterApply` of the old one; the other session keys are unchanged; the outcome is FormInvalid iff the form is invalid and Applied iff a coupon passes the test |
| `CouponViews.Session.CouponRemove` | flower_shop_project2/coupons/views.py:28-37 | the new `couponId` is `AfterRemove` of the old one; `removed` is true iff a coupon was stored; the other session keys are unchanged |

## Left out

- The `messages` framework, `redirect` and `@require_POST`. They are
  framework I/O. Their effect is visible only as the `ApplyOutcome` value
  of `CouponApply` and the `removed` flag of `CouponRemove`.
- `timezone.now()` and `CouponApplyForm`. The form class is not part of
  this model. The time and the form's verdict, with the cleaned code, are
  parameters.
- Unicode case folding of `iexact`. The model folds ASCII letters only.
- The `Decimal` context: 28 significant digits and its rounding. The model
  uses exact reals. For a discount in 0..100 and non-negative prices (so
  that no partial sum exceeds the subtotal), these agree while the
  subtotal stays below 10^24, since the amounts then have at most 28
  significant digits (4 of them after the point). A discount above 100,
  which pricing accepts, can need more digits and round. A single item
  at the largest price and quantity costs about 2.1 x 10^17. An order of
  about 4.7 million such items would exceed the bound, and `Decimal`
  would then round where the model does not.
- `Orders.ItemValid`: asks for a non-negative price, which the source does
  not enforce: a `DecimalField` without a validator accepts negative
  prices. The bounds that rest on `ItemValid` or `OrderValid` (discount
  amount and total between 0 and the subtotal, monotonicity in the
  discount) assume that negative prices do not occur.
- Validators run only when a coupon is fully validated (`full_clean`, as a
  model form does). A plain `save()` skips them. No form or admin page for
  `Coupon` is part of this model. The model assumes that every stored
  coupon passed full validation.
- A session key that is absent and a key set to `None` are the one value
  `None` in the model. `session.get` returns `None` for both.
- `CouponViews.Session.CouponApply`: requires codes unique up to case. On a
  table where two codes that differ only in case both pass the test, the
  source raises an uncaught `MultipleObjectsReturned`. The model does not
  follow that crash (see "## Findings"). `CouponViews.Get` does model it.
- `CouponViews.AfterApply`: requires codes unique up to case, for the same
  reason.
- How `Order.discount` and `Order.coupon` are set at checkout. That code is
  not part of this model.
- The customer fields of `Order` (name, e-mail, address, postal code,
  city), its timestamps and the `__str__` methods of `Order` and
  `OrderItem`. They carry no pricing logic.
- The catalog (`shop/`), the order e-mail task (`orders/tasks.py`) and the
  Celery set-up. They are framework declarations and asynchronous I/O.

## Findings

| source | as written | input that shows it | evidently intended | confidence | as-written member | corrected member |
|---|---|---|---|---|---|---|
| flower_shop_project2/coupons/models.py:6 | on a case-sensitive collation such as SQLite's or PostgreSQL's default, `code` is unique only case-sensitively, but `coupon_apply` looks it up ignoring case (`code__iexact`, coupons/views.py:16) | two active coupons "SPRING10" and "spring10" with overlapping windows, and the code "Spring10" submitted inside both windows: the query finds two rows and `.get` raises `MultipleObjectsReturned`, which the view does not catch | codes unique up to case, so that at most one coupon passes the lookup (`CouponViews.GetUnambiguous`) | medium, not executed | `CouponViews.ExactUniquenessAdmitsAmbiguousLookup` | `Coupons.CreateIgnoringCase` |
