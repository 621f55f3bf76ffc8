/**
 * The two coupon endpoints. `coupon_apply` looks a coupon up by code and
 * time and records it in the browser session, `coupon_remove` takes it out
 * again. The clock reading and the form's verdict are parameters; the
 * session is an object whose `couponId` field is the `coupon_id` key.
 */
module CouponViews {
  import opened Wrappers
  import opened AsciiCase
  import opened Coupons

  /** The four-part test of the lookup: code ignoring case, both ends of the window inclusive, and active. */
  predicate Redeemable(c: Coupon, code: string, now: int)
    ensures Redeemable(c, code, now) ==> c.validFrom <= c.validTo
    ensures Redeemable(c, code, now) ==> Lower(code) == Lower(c.code)
  {
    EqualIgnoringCase(c.code, code) && c.validFrom <= now && now <= c.validTo && c.active
  }

  /** The rows the lookup's filter selects, in table order. */
  function Matching(store: seq<Coupon>, code: string, now: int): (r: seq<Coupon>)
    ensures |r| <= |store|
    ensures forall c :: c in r <==> c in store && Redeemable(c, code, now)
    ensures (forall c :: c in store ==> !Redeemable(c, code, now)) ==> r == []
  {
    if store == [] then []
    else if Redeemable(store[0], code, now) then [store[0]] + Matching(store[1..], code, now)
    else Matching(store[1..], code, now)
  }

  /** The three outcomes of a single-row query. */
  datatype Lookup = Found(coupon: Coupon) | DoesNotExist | MultipleObjectsReturned

  /** Two different rows of the table pass the test. */
  predicate TwoRedeemable(store: seq<Coupon>, code: string, now: int) {
    exists i, j :: 0 <= i < j < |store| && Redeemable(store[i], code, now) && Redeemable(store[j], code, now)
  }

  /** Two selected rows come from two different positions of the table. */
  lemma {:induction false} TwoMatchesHaveTwoRows(store: seq<Coupon>, code: string, now: int)
    requires 2 <= |Matching(store, code, now)|
    ensures TwoRedeemable(store, code, now)
  {
    var rest := store[1..];
    var m := Matching(rest, code, now);
    if Redeemable(store[0], code, now) {
      assert Matching(store, code, now) == [store[0]] + m;
      assert m[0] in m;
      var k :| 0 <= k < |rest| && rest[k] == m[0];
      assert store[k + 1] == m[0] && Redeemable(m[0], code, now);
      assert 0 < k + 1 < |store| && Redeemable(store[0], code, now) && Redeemable(store[k + 1], code, now);
    } else {
      assert Matching(store, code, now) == m;
      TwoMatchesHaveTwoRows(rest, code, now);
      var i, j :| 0 <= i < j < |rest| && Redeemable(rest[i], code, now) && Redeemable(rest[j], code, now);
      assert store[i + 1] == rest[i] && store[j + 1] == rest[j];
      assert 0 <= i + 1 < j + 1 < |store| && Redeemable(store[i + 1], code, now) && Redeemable(store[j + 1], code, now);
    }
  }

  /** Two different passing rows are both selected. */
  lemma {:induction false} TwoRowsHaveTwoMatches(store: seq<Coupon>, code: string, now: int, i: int, j: int)
    requires 0 <= i < j < |store|
    requires Redeemable(store[i], code, now) && Redeemable(store[j], code, now)
    ensures 2 <= |Matching(store, code, now)|
  {
    var rest := store[1..];
    if i == 0 {
      assert rest[j - 1] == store[j];
      assert store[j] in Matching(rest, code, now);
    } else {
      assert rest[i - 1] == store[i] && rest[j - 1] == store[j];
      TwoRowsHaveTwoMatches(rest, code, now, i - 1, j - 1);
    }
  }

  /**
   * The query `Coupon.objects.get(...)` of `coupon_apply`: it returns the
   * one passing row, reports DoesNotExist when no row passes and
   * MultipleObjectsReturned when two or more do.
   */
  function Get(store: seq<Coupon>, code: string, now: int): (r: Lookup)
    ensures r.Found? ==> r.coupon in store && Redeemable(r.coupon, code, now)
    ensures r.DoesNotExist? <==> forall c :: c in store ==> !Redeemable(c, code, now)
    ensures r.MultipleObjectsReturned? <==> TwoRedeemable(store, code, now)
  {
    var m := Matching(store, code, now);
    assert 2 <= |m| <==> TwoRedeemable(store, code, now) by {
      if 2 <= |m| {
        TwoMatchesHaveTwoRows(store, code, now);
      }
      if TwoRedeemable(store, code, now) {
        var i, j :| 0 <= i < j < |store| && Redeemable(store[i], code, now) && Redeemable(store[j], code, now);
        TwoRowsHaveTwoMatches(store, code, now, i, j);
      }
    }
    if |m| == 0 then DoesNotExist
    else if |m| == 1 then (assert m[0] in m; Found(m[0]))
    else (assert m[0] in m; MultipleObjectsReturned)
  }

  /** With codes unique up to case, at most one row passes the test. */
  lemma {:induction false} MatchingAtMostOne(store: seq<Coupon>, code: string, now: int)
    requires CodesUniqueIgnoringCase(store)
    ensures |Matching(store, code, now)| <= 1
  {
    if store != [] {
      assert CodesUniqueIgnoringCase(store[1..]) by {
        forall i, j | 0 <= i < j < |store[1..]|
          ensures !EqualIgnoringCase(store[1..][i].code, store[1..][j].code)
        {
          assert store[1..][i] == store[i + 1] && store[1..][j] == store[j + 1];
        }
      }
      if Redeemable(store[0], code, now) {
        assert forall c :: c in store[1..] ==> !Redeemable(c, code, now);
      } else {
        MatchingAtMostOne(store[1..], code, now);
      }
    }
  }

  /** With codes unique up to case, two rows that pass the test are the same row. */
  lemma RedeemableUnique(store: seq<Coupon>, code: string, now: int, i: int, j: int)
    requires CodesUniqueIgnoringCase(store)
    requires 0 <= i < |store| && 0 <= j < |store|
    requires Redeemable(store[i], code, now) && Redeemable(store[j], code, now)
    ensures i == j
  {
  }

  /**
   * With codes unique up to case the query never raises
   * MultipleObjectsReturned, and it finds a coupon exactly when that coupon
   * is in the table and passes the test.
   */
  lemma GetUnambiguous(store: seq<Coupon>, code: string, now: int)
    requires CodesUniqueIgnoringCase(store)
    ensures !Get(store, code, now).MultipleObjectsReturned?
    ensures forall c :: Get(store, code, now) == Found(c) <==> c in store && Redeemable(c, code, now)
  {
    MatchingAtMostOne(store, code, now);
    forall c | c in store && Redeemable(c, code, now) ensures Get(store, code, now) == Found(c) {
      var r := Get(store, code, now);
      assert r.Found?;
      var i :| 0 <= i < |store| && store[i] == c;
      var j :| 0 <= j < |store| && store[j] == r.coupon;
      RedeemableUnique(store, code, now, i, j);
    }
  }

  /** Exact uniqueness, all the `code` column declares, lets two codes that differ only by case both pass the test. */
  lemma ExactUniquenessAdmitsAmbiguousLookup()
    ensures var store := [Coupon(1, "SPRING10", 0, 10, 10, true), Coupon(2, "spring10", 0, 10, 20, true)];
      StoreValid(store) && Get(store, "Spring10", 5) == MultipleObjectsReturned
  {
    var store := [Coupon(1, "SPRING10", 0, 10, 10, true), Coupon(2, "spring10", 0, 10, 20, true)];
    assert Lower("SPRING10") == "spring10";
    assert Lower("spring10") == "spring10";
    assert Lower("Spring10") == "spring10";
    assert Matching(store, "Spring10", 5) == [store[0], store[1]];
  }

  /** Python's truth test on the stored value: `None` and `0` are false. */
  predicate Truthy(id: Option<int>) {
    id.Some? && id.value != 0
  }

  /** A stored coupon id is absent or a database id, which is positive. */
  predicate SessionValid(id: Option<int>) {
    id.None? || 1 <= id.value
  }

  /** The value of `coupon_id` after `coupon_apply`, given its value before. */
  function AfterApply(prev: Option<int>, store: seq<Coupon>, formValid: bool, code: string, now: int): (r: Option<int>)
    requires CodesUniqueIgnoringCase(store)
    ensures !formValid ==> r == prev
    ensures formValid ==> (r.Some? <==> exists c :: c in store && Redeemable(c, code, now))
    ensures formValid ==> forall c :: c in store && Redeemable(c, code, now) ==> r == Some(c.id)
    ensures (forall c :: c in store ==> 1 <= c.id) && SessionValid(prev) ==> SessionValid(r)
  {
    if !formValid then prev
    else
      GetUnambiguous(store, code, now);
      match Get(store, code, now)
      case Found(c) => Some(c.id)
      case DoesNotExist => None
  }

  /** The value of `coupon_id` after `coupon_remove`, given its value before. */
  function AfterRemove(prev: Option<int>): (r: Option<int>)
    ensures SessionValid(prev) ==> r == None
    ensures !Truthy(prev) ==> r == prev
    ensures !Truthy(r)
  {
    if Truthy(prev) then None else prev
  }

  /** Every way the test can fail (wrong code, not yet valid, expired, inactive) clears the stored coupon. */
  lemma FailedLookupClears(prev: Option<int>, store: seq<Coupon>, code: string, now: int)
    requires CodesUniqueIgnoringCase(store)
    requires forall c :: c in store ==>
      !EqualIgnoringCase(c.code, code) || now < c.validFrom || c.validTo < now || !c.active
    ensures AfterApply(prev, store, true, code, now) == None
  {
  }

  /** Both ends of the validity window are accepted; the instants just outside them are not. */
  lemma WindowInclusive(prev: Option<int>, store: seq<Coupon>, c: Coupon, code: string)
    requires CodesUniqueIgnoringCase(store)
    requires c in store && c.active && EqualIgnoringCase(c.code, code) && c.validFrom <= c.validTo
    ensures AfterApply(prev, store, true, code, c.validFrom) == Some(c.id)
    ensures AfterApply(prev, store, true, code, c.validTo) == Some(c.id)
    ensures !Redeemable(c, code, c.validFrom - 1) && !Redeemable(c, code, c.validTo + 1)
  {
  }

  /** Removing twice is removing once, and the second call finds nothing to remove. */
  lemma RemoveIdempotent(prev: Option<int>)
    ensures AfterRemove(AfterRemove(prev)) == AfterRemove(prev)
    ensures !Truthy(AfterRemove(prev))
  {
  }

  /** The outcome `coupon_apply` reports through its message. */
  datatype ApplyOutcome = FormInvalid | Applied | NotApplied

  /** The browser session: the `coupon_id` key and the other keys it holds. */
  class Session {
    var couponId: Option<int>
    var others: map<string, string>

    constructor (others: map<string, string>)
      ensures couponId == None && this.others == others
    {
      couponId := None;
      this.others := others;
    }

    /** `coupon_apply`: on a valid form, store the redeemable coupon's id or clear the key. */
    method CouponApply(store: seq<Coupon>, formValid: bool, code: string, now: int) returns (outcome: ApplyOutcome)
      requires CodesUniqueIgnoringCase(store)
      modifies this`couponId
      ensures couponId == AfterApply(old(couponId), store, formValid, code, now)
      ensures others == old(others)
      ensures outcome == FormInvalid <==> !formValid
      ensures outcome == Applied <==> formValid && exists c :: c in store && Redeemable(c, code, now)
    {
      if formValid {
        GetUnambiguous(store, code, now);
        var found := Get(store, code, now);
        if found.Found? {
          couponId := Some(found.coupon.id);
          outcome := Applied;
        } else {
          couponId := None;
          outcome := NotApplied;
        }
      } else {
        outcome := FormInvalid;
      }
    }

    /** `coupon_remove`: clear the key when it holds a coupon; `removed` tells whether it did. */
    method CouponRemove() returns (removed: bool)
      modifies this`couponId
      ensures removed == Truthy(old(couponId))
      ensures couponId == AfterRemove(old(couponId))
      ensures others == old(others)
    {
      var id := couponId;
      removed := Truthy(id);
      if removed {
        couponId := None;
      }
    }
  }
}
