/**
 * The coupon record and the rules its field validators and the unique
 * `code` column state, checked when a coupon is fully validated before it
 * is saved: the code is 1 to 50 characters long and unique, and the
 * discount is a whole percentage between 0 and 100.
 */
module Coupons {
  import opened Wrappers
  import opened AsciiCase

  /** The longest code the `code` column accepts. */
  const CodeMaxLength := 50

  /**
   * A coupon. Times are instants on one integer clock (for instance
   * microseconds since the epoch); `id` is the primary key the database
   * assigns.
   */
  datatype Coupon = Coupon(
    id: int,
    code: string,
    validFrom: int,
    validTo: int,
    discount: int,
    active: bool)

  /** The string form of a coupon is its code. */
  function ToString(c: Coupon): (s: string)
    ensures s == c.code
  {
    c.code
  }

  /** The constraints on a single saved coupon. */
  predicate WellFormed(c: Coupon)
    ensures WellFormed(c) ==> 0 < |ToString(c)| <= CodeMaxLength
  {
    1 <= c.id && 0 < |c.code| <= CodeMaxLength && 0 <= c.discount <= 100
  }

  predicate IdsUnique(store: seq<Coupon>) {
    forall i, j :: 0 <= i < j < |store| ==> store[i].id != store[j].id
  }

  /** The uniqueness the `code` column declares, under a case-sensitive collation such as SQLite's or PostgreSQL's default: exact comparison. */
  predicate CodesUnique(store: seq<Coupon>)
    ensures CodesUnique(store) ==> forall i, j ::
      0 <= i < |store| && 0 <= j < |store| && store[i].code == store[j].code ==> i == j
  {
    forall i, j :: 0 <= i < j < |store| ==> store[i].code != store[j].code
  }

  /** Uniqueness of codes up to ASCII case, the uniqueness the case-insensitive lookup needs. */
  predicate CodesUniqueIgnoringCase(store: seq<Coupon>) {
    forall i, j :: 0 <= i < j < |store| ==> !EqualIgnoringCase(store[i].code, store[j].code)
  }

  /** A coupon table in which every row passed full validation. */
  predicate StoreValid(store: seq<Coupon>)
    ensures StoreValid(store) ==> forall c :: c in store ==> 1 <= c.id && 0 <= c.discount <= 100
  {
    (forall i :: 0 <= i < |store| ==> WellFormed(store[i])) && IdsUnique(store) && CodesUnique(store)
  }

  /** Uniqueness up to case is the stronger of the two uniqueness rules. */
  lemma IgnoringCaseImpliesExact(store: seq<Coupon>)
    requires CodesUniqueIgnoringCase(store)
    ensures CodesUnique(store)
  {
  }

  /** In a valid table a coupon is identified by its string form. */
  lemma ToStringIdentifies(store: seq<Coupon>, i: int, j: int)
    requires StoreValid(store)
    requires 0 <= i < |store| && 0 <= j < |store|
    requires ToString(store[i]) == ToString(store[j])
    ensures i == j
  {
  }

  /** The reasons full validation refuses a new coupon. */
  datatype FieldError = CodeBlank | CodeTooLong | CodeTaken | DiscountBelowMin | DiscountAboveMax

  /** Some coupon of the table already has exactly this code. */
  predicate CodeInUse(store: seq<Coupon>, code: string) {
    exists i :: 0 <= i < |store| && store[i].code == code
  }

  /** Some coupon of the table has this code up to ASCII case. */
  predicate CodeInUseIgnoringCase(store: seq<Coupon>, code: string) {
    exists i :: 0 <= i < |store| && EqualIgnoringCase(store[i].code, code)
  }

  /** The errors of the field validators, in the order the fields are declared. */
  function FieldErrors(code: string, discount: int): (errs: seq<FieldError>)
    ensures CodeBlank in errs <==> |code| == 0
    ensures CodeTooLong in errs <==> CodeMaxLength < |code|
    ensures DiscountBelowMin in errs <==> discount < 0
    ensures DiscountAboveMax in errs <==> 100 < discount
    ensures CodeTaken !in errs
  {
    (if |code| == 0 then [CodeBlank] else [])
    + (if CodeMaxLength < |code| then [CodeTooLong] else [])
    + (if discount < 0 then [DiscountBelowMin] else [])
    + (if 100 < discount then [DiscountAboveMax] else [])
  }

  /** All errors of a new coupon, with the case-sensitive uniqueness check the `code` column declares. */
  function Validate(store: seq<Coupon>, code: string, discount: int): (errs: seq<FieldError>)
    ensures CodeTaken in errs <==> CodeInUse(store, code)
    ensures errs == [] <==> 0 < |code| <= CodeMaxLength && 0 <= discount <= 100 && !CodeInUse(store, code)
  {
    FieldErrors(code, discount) + (if CodeInUse(store, code) then [CodeTaken] else [])
  }

  /** All errors of a new coupon, with uniqueness checked up to ASCII case. */
  function ValidateIgnoringCase(store: seq<Coupon>, code: string, discount: int): (errs: seq<FieldError>)
    ensures CodeTaken in errs <==> CodeInUseIgnoringCase(store, code)
    ensures errs == [] <==> 0 < |code| <= CodeMaxLength && 0 <= discount <= 100 && !CodeInUseIgnoringCase(store, code)
  {
    FieldErrors(code, discount) + (if CodeInUseIgnoringCase(store, code) then [CodeTaken] else [])
  }

  /** The largest id in the table, 0 for an empty table. */
  function MaxId(store: seq<Coupon>): (m: int)
    ensures 0 <= m
    ensures forall i :: 0 <= i < |store| ==> store[i].id <= m
  {
    if store == [] then 0
    else
      var rest := MaxId(store[1..]);
      if store[0].id > rest then store[0].id else rest
  }

  /** The coupon the next insertion creates: its id is one past every id in use. */
  function NewCoupon(store: seq<Coupon>, code: string, validFrom: int, validTo: int, discount: int, active: bool): (c: Coupon)
    ensures forall i :: 0 <= i < |store| ==> store[i].id < c.id
    ensures 1 <= c.id
  {
    Coupon(MaxId(store) + 1, code, validFrom, validTo, discount, active)
  }

  /** Appending a well-formed coupon with a fresh id and an unused code keeps the table valid. */
  lemma AppendKeepsStoreValid(store: seq<Coupon>, c: Coupon)
    requires StoreValid(store) && WellFormed(c) && !CodeInUse(store, c.code)
    requires forall i :: 0 <= i < |store| ==> store[i].id < c.id
    ensures StoreValid(store + [c])
  {
  }

  /** Appending a coupon whose code is unused up to case keeps the codes unique up to case. */
  lemma AppendKeepsCodesUniqueIgnoringCase(store: seq<Coupon>, c: Coupon)
    requires CodesUniqueIgnoringCase(store) && !CodeInUseIgnoringCase(store, c.code)
    ensures CodesUniqueIgnoringCase(store + [c])
  {
  }

  /**
   * Saving a new coupon after full validation: refused with the
   * validation errors, or the table with the new coupon appended. The
   * validity window is not checked: `validFrom` may lie after `validTo`.
   */
  function Create(store: seq<Coupon>, code: string, validFrom: int, validTo: int, discount: int, active: bool)
    : (r: Result<seq<Coupon>, seq<FieldError>>)
    ensures r.Err? <==> Validate(store, code, discount) != []
    ensures r.Err? ==> r.error == Validate(store, code, discount)
    ensures r.Ok? ==> |r.value| == |store| + 1 && r.value[..|store|] == store
    ensures r.Ok? ==> var c := r.value[|store|];
      c.code == code && c.validFrom == validFrom && c.validTo == validTo
      && c.discount == discount && c.active == active
    ensures r.Ok? && StoreValid(store) ==> StoreValid(r.value)
  {
    var errs := Validate(store, code, discount);
    if errs != [] then Err(errs)
    else
      var c := NewCoupon(store, code, validFrom, validTo, discount, active);
      assert StoreValid(store) ==> StoreValid(store + [c]) by {
        if StoreValid(store) {
          AppendKeepsStoreValid(store, c);
        }
      }
      Ok(store + [c])
  }

  /** Saving a new coupon with uniqueness checked up to case: keeps the codes unique up to case. */
  function CreateIgnoringCase(store: seq<Coupon>, code: string, validFrom: int, validTo: int, discount: int, active: bool)
    : (r: Result<seq<Coupon>, seq<FieldError>>)
    ensures r.Err? <==> ValidateIgnoringCase(store, code, discount) != []
    ensures r.Err? ==> r.error == ValidateIgnoringCase(store, code, discount)
    ensures r.Ok? ==> |r.value| == |store| + 1 && r.value[..|store|] == store
    ensures r.Ok? ==> var c := r.value[|store|];
      c.code == code && c.validFrom == validFrom && c.validTo == validTo
      && c.discount == discount && c.active == active
    ensures r.Ok? && StoreValid(store) ==> StoreValid(r.value)
    ensures r.Ok? && CodesUniqueIgnoringCase(store) ==> CodesUniqueIgnoringCase(r.value)
  {
    var errs := ValidateIgnoringCase(store, code, discount);
    if errs != [] then Err(errs)
    else
      var c := NewCoupon(store, code, validFrom, validTo, discount, active);
      assert !CodeInUse(store, code);
      assert StoreValid(store) ==> StoreValid(store + [c]) by {
        if StoreValid(store) {
          AppendKeepsStoreValid(store, c);
        }
      }
      assert CodesUniqueIgnoringCase(store) ==> CodesUniqueIgnoringCase(store + [c]) by {
        if CodesUniqueIgnoringCase(store) {
          AppendKeepsCodesUniqueIgnoringCase(store, c);
        }
      }
      Ok(store + [c])
  }
}
