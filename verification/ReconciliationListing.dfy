/**
 * Which orders a reconciliation pass gets to see. The listing takes the most recently updated ones up to a limit, and
 * a pass updates those it answers.
 */
module ReconciliationListing {
  type Time = int

  /** When each order that matches the filter was last updated. */
  type Updates = map<string, Time>

  /** The listed orders are the latest ones, all of them when the limit allows. */
  ghost predicate Lists(orders: Updates, listed: set<string>, limit: nat) {
    && listed <= orders.Keys && |listed| <= limit
    && (|listed| == limit || listed == orders.Keys)
    && (forall a, b :: a in listed && b in orders.Keys - listed ==> orders[a] > orders[b])
  }

  /** A pass leaves every order that it did not list as it was, and sets no order back. */
  ghost predicate Passes(before: Updates, listed: set<string>, after: Updates) {
    && after.Keys == before.Keys && listed <= before.Keys
    && (forall id :: id in before.Keys - listed ==> after[id] == before[id])
    && (forall id :: id in listed ==> after[id] >= before[id])
  }

  /** Passes over the same matching orders, one after the other: the updates before each, and what it listed. */
  ghost predicate Run(states: seq<Updates>, listings: seq<set<string>>, limit: nat) {
    && |states| == |listings| + 1
    && (forall k :: 0 <= k < |listings| ==>
          Lists(states[k], listings[k], limit) && Passes(states[k], listings[k], states[k + 1]))
  }

  lemma SubsetOfSameSize(a: set<string>, b: set<string>)
    requires a <= b && |a| == |b|
    ensures a == b
  {
    assert b == a + (b - a);
  }

  lemma {:induction false} SubsetIsSmaller(a: set<string>, b: set<string>)
    requires a <= b
    ensures |a| <= |b|
    decreases |a|
  {
    if a != {} {
      var x :| x in a;
      SubsetIsSmaller(a - {x}, b - {x});
    }
  }

  lemma ListingsNest(orders: Updates, some: set<string>, other: set<string>, limit: nat)
    requires Lists(orders, some, limit) && Lists(orders, other, limit)
    ensures some <= other || other <= some
  {
  }

  /** A listing is determined by the updates. */
  lemma ListingIsUnique(orders: Updates, some: set<string>, other: set<string>, limit: nat)
    requires Lists(orders, some, limit) && Lists(orders, other, limit)
    ensures some == other
  {
    ListingsNest(orders, some, other, limit);
    if some <= other {
      SubsetIsSmaller(some, other);
      SubsetIsSmaller(other, orders.Keys);
      SubsetOfSameSize(some, other);
    } else {
      SubsetIsSmaller(other, some);
      SubsetIsSmaller(some, orders.Keys);
      SubsetOfSameSize(other, some);
    }
  }

  /** As long as the same orders match, every pass lists those the first one did. */
  lemma {:induction false} EveryPassListsTheSame(states: seq<Updates>, listings: seq<set<string>>, limit: nat, k: nat)
    requires Run(states, listings, limit) && k < |listings|
    ensures listings[k] == listings[0] && states[k].Keys == states[0].Keys
  {
    if k > 0 {
      EveryPassListsTheSame(states, listings, limit, k - 1);
      assert Passes(states[k - 1], listings[k - 1], states[k]);
      assert Lists(states[k], listings[k - 1], limit);
      ListingIsUnique(states[k], listings[k], listings[k - 1], limit);
    }
  }

  /**
   * So over any number of passes every matching order is listed sooner or later exactly when they all fit the limit;
   * otherwise the same ones are listed again and again, and the others never.
   */
  lemma EveryOrderIsListedIff(states: seq<Updates>, listings: seq<set<string>>, limit: nat)
    requires Run(states, listings, limit) && |listings| > 0
    ensures (forall id :: id in states[0] ==> exists k :: 0 <= k < |listings| && id in listings[k])
            <==> |states[0].Keys| <= limit
  {
    assert Lists(states[0], listings[0], limit);
    if |states[0].Keys| <= limit {
      FullWhenSmall(states[0], listings[0], limit);
    } else {
      var id := LeftOut(states[0], listings[0], limit);
      forall k | 0 <= k < |listings|
        ensures id !in listings[k]
      {
        EveryPassListsTheSame(states, listings, limit, k);
      }
    }
  }

  lemma LeftOut(orders: Updates, listed: set<string>, limit: nat) returns (id: string)
    requires Lists(orders, listed, limit) && |orders.Keys| > limit
    ensures id in orders && id !in listed
  {
    assert orders.Keys == listed + (orders.Keys - listed);
    assert orders.Keys - listed != {};
    id :| id in orders.Keys - listed;
  }

  lemma FullWhenSmall(orders: Updates, listed: set<string>, limit: nat)
    requires Lists(orders, listed, limit) && |orders.Keys| <= limit
    ensures listed == orders.Keys
  {
    if |listed| == limit {
      SubsetIsSmaller(listed, orders.Keys);
      SubsetOfSameSize(listed, orders.Keys);
    }
  }
}
