/**
 * The subscription refresh endpoint: find the signed-in user's Stripe
 * customer (stored id first, else the first Stripe customer with the user's
 * e-mail, which is then recorded), list that customer's subscriptions, order
 * them newest first, take the first one that is not canceled (else the
 * newest), and upsert it as the user's subscription. The answers of the
 * database and of Stripe are inputs.
 */
module StripeRefresh {
  import opened Wrappers
  import StableSort

  datatype User = User(id: string, email: Option<string>)

  /** A Stripe subscription with the fields the endpoint reads; instants are in seconds. */
  datatype Subscription = Subscription(id: string, created: Option<int>, status: string, priceIds: seq<string>,
                                       currentPeriodEnd: Option<int>, cancelAtPeriodEnd: Option<bool>,
                                       trialEnd: Option<int>)

  /** The `localseo_customers` lookup: an error, or the stored `stripe_customer_id` (None for no row or null). */
  datatype CustomerLookup = CustomerError | Stored(customerId: Option<string>)

  /** The `localseo_subscriptions` row written; instants are in milliseconds. */
  datatype SubscriptionRow = SubscriptionRow(ownerId: string, subscriptionId: string, priceId: Option<string>,
                                             status: string, currentPeriodEnd: Option<int>,
                                             cancelAtPeriodEnd: bool, trialEnd: Option<int>)

  datatype Response = SignInRequired | ServerError | NoCustomer | NoSubscriptions
                    | Refreshed(status: string, subscriptionId: string)

  /** What the endpoint writes: the customer id it recorded (a failed insert records none) and the upserted subscription, when it gets that far. */
  datatype Writes = Writes(insertedCustomer: Option<string>, upserted: Option<SubscriptionRow>)

  /** A JavaScript string that is neither null nor empty. */
  predicate Truthy(s: Option<string>) {
    s.Some? && s.value != ""
  }

  /**
   * The customer id after lines `let customerId = ...` to the end of the
   * e-mail fallback: the stored id when it is truthy, otherwise, for a user
   * with an e-mail, the first Stripe customer listed for it.
   */
  function ResolveCustomer(stored: Option<string>, email: Option<string>, byEmail: string -> seq<string>): Option<string> {
    if !Truthy(stored) && Truthy(email) then
      (if byEmail(email.value) != [] then Some(byEmail(email.value)[0]) else None)
    else stored
  }

  /** Resolution order: a stored id wins; without one the e-mail lookup decides; without either there is none. */
  lemma ResolveCustomerOrder(stored: Option<string>, email: Option<string>, byEmail: string -> seq<string>)
    ensures Truthy(stored) ==> ResolveCustomer(stored, email, byEmail) == stored
    ensures !Truthy(stored) && Truthy(email) ==>
              (Truthy(ResolveCustomer(stored, email, byEmail)) <==>
                 byEmail(email.value) != [] && byEmail(email.value)[0] != "")
    ensures !Truthy(stored) && !Truthy(email) ==> !Truthy(ResolveCustomer(stored, email, byEmail))
  {
  }

  /** `(s.created ?? 0)`, the sort key. */
  function CreatedKey(s: Subscription): int {
    s.created.GetOr(0)
  }

  /** The position of the first subscription that is not canceled, if any (`find`). */
  function FirstActive(sorted: seq<Subscription>): (k: int)
    ensures -1 <= k < |sorted|
    ensures k >= 0 ==> sorted[k].status != "canceled"
    ensures forall j :: 0 <= j < |sorted| && (k == -1 || j < k) ==> sorted[j].status == "canceled"
  {
    if sorted == [] then -1
    else if sorted[0].status != "canceled" then 0
    else
      var k := FirstActive(sorted[1..]);
      assert forall j :: 0 < j < |sorted| ==> sorted[j] == sorted[1..][j - 1];
      if k == -1 then -1 else k + 1
  }

  /** `sorted.find(s => s.status !== "canceled") ?? sorted[0]`. */
  function Pick(sorted: seq<Subscription>): Subscription
    requires sorted != []
  {
    var k := FirstActive(sorted);
    if k >= 0 then sorted[k] else sorted[0]
  }

  /** The subscription the endpoint stores, from Stripe's list. */
  function Selected(subscriptions: seq<Subscription>): Subscription
    requires subscriptions != []
  {
    StableSort.SortDescCorrect(subscriptions, CreatedKey);
    Pick(StableSort.SortDesc(subscriptions, CreatedKey))
  }

  /** On a list ordered newest first, the pick is the newest non-canceled entry, else the newest. */
  lemma PickSpec(sorted: seq<Subscription>)
    requires sorted != [] && StableSort.NonIncreasing(sorted, CreatedKey)
    ensures Pick(sorted) in sorted
    ensures (exists j :: 0 <= j < |sorted| && sorted[j].status != "canceled") ==>
              && Pick(sorted).status != "canceled"
              && forall j :: 0 <= j < |sorted| && sorted[j].status != "canceled" ==> CreatedKey(sorted[j]) <= CreatedKey(Pick(sorted))
    ensures forall j :: 0 <= j < |sorted| ==> CreatedKey(sorted[j]) <= CreatedKey(sorted[0])
  {
  }

  /**
   * The selected subscription is one of the list. When some subscription is
   * not canceled, it is a non-canceled one created no earlier than any other
   * non-canceled one; otherwise it is created no earlier than any other.
   * (A missing `created` counts as 0.)
   */
  lemma SelectedSpec(subscriptions: seq<Subscription>)
    requires subscriptions != []
    ensures Selected(subscriptions) in subscriptions
    ensures (exists s :: s in subscriptions && s.status != "canceled") ==>
              && Selected(subscriptions).status != "canceled"
              && forall s :: s in subscriptions && s.status != "canceled" ==>
                   CreatedKey(s) <= CreatedKey(Selected(subscriptions))
    ensures (forall s :: s in subscriptions ==> s.status == "canceled") ==>
              forall s :: s in subscriptions ==> CreatedKey(s) <= CreatedKey(Selected(subscriptions))
  {
    var sorted := StableSort.SortDesc(subscriptions, CreatedKey);
    StableSort.SortDescCorrect(subscriptions, CreatedKey);
    PickSpec(sorted);
    var chosen := Pick(sorted);
    assert chosen in multiset(sorted);
    SameMembers(subscriptions, sorted);
    if forall s :: s in subscriptions ==> s.status == "canceled" {
      assert FirstActive(sorted) == -1;
    }
  }

  lemma SameMembers(a: seq<Subscription>, b: seq<Subscription>)
    requires multiset(a) == multiset(b)
    ensures forall s :: s in a <==> s in b
  {
    forall s ensures s in a <==> s in b {
      assert s in a <==> s in multiset(a);
      assert s in b <==> s in multiset(b);
    }
  }

  /** `t ? new Date(t * 1000).toISOString() : null`, in milliseconds. */
  function InstantOf(t: Option<int>): Option<int> {
    if t.Some? && t.value != 0 then Some(t.value * 1000) else None
  }

  /** The row upserted for the chosen subscription. */
  function RowFor(userId: string, latest: Subscription): (row: SubscriptionRow)
    ensures row.priceId == (if latest.priceIds != [] then Some(latest.priceIds[0]) else None)
    ensures row.subscriptionId == latest.id && row.status == latest.status && row.ownerId == userId
  {
    SubscriptionRow(userId, latest.id, if latest.priceIds != [] then Some(latest.priceIds[0]) else None,
                    latest.status, InstantOf(latest.currentPeriodEnd),
                    latest.cancelAtPeriodEnd.GetOr(false), InstantOf(latest.trialEnd))
  }

  /**
   * `POST`, with the signed-in user, the customer lookup, Stripe's customers
   * by e-mail, whether recording the customer fails, and Stripe's
   * subscriptions by customer id.
   */
  method Refresh(user: Option<User>, customer: CustomerLookup, byEmail: string -> seq<string>, insertFails: bool,
                 subscriptionsOf: string -> seq<Subscription>)
    returns (response: Response, writes: Writes)
    ensures user.None? ==> response == SignInRequired && writes == Writes(None, None)
    ensures user.Some? && customer.CustomerError? ==> response == ServerError && writes == Writes(None, None)
    ensures user.Some? && customer.Stored? ==>
              var customerId := ResolveCustomer(customer.customerId, user.value.email, byEmail);
              var looked := !Truthy(customer.customerId) && Truthy(user.value.email);
              && (writes.insertedCustomer.Some? <==> looked && Truthy(customerId) && !insertFails)
              && (writes.insertedCustomer.Some? ==> writes.insertedCustomer == customerId)
              && (looked && Truthy(customerId) && insertFails ==> response == ServerError && writes.upserted.None?)
              && (!Truthy(customerId) ==> response == NoCustomer && writes.upserted.None?)
              && (Truthy(customerId) && !(looked && insertFails) ==>
                    var subscriptions := subscriptionsOf(customerId.value);
                    && (subscriptions == [] ==> response == NoSubscriptions && writes.upserted.None?)
                    && (subscriptions != [] ==>
                          var latest := Selected(subscriptions);
                          && writes.upserted == Some(RowFor(user.value.id, latest))
                          && response == Refreshed(latest.status, latest.id)))
  {
    if user.None? {
      return SignInRequired, Writes(None, None);
    }
    if customer.CustomerError? {
      return ServerError, Writes(None, None);
    }
    var inserted: Option<string> := None;
    var customerId := customer.customerId;
    if !Truthy(customerId) && Truthy(user.value.email) {
      var existing := byEmail(user.value.email.value);
      customerId := if existing != [] then Some(existing[0]) else None;
      if Truthy(customerId) {
        if insertFails {
          return ServerError, Writes(None, None);
        }
        inserted := customerId;
      }
    }
    if !Truthy(customerId) {
      return NoCustomer, Writes(inserted, None);
    }
    var subscriptions := subscriptionsOf(customerId.value);
    if |subscriptions| == 0 {
      return NoSubscriptions, Writes(inserted, None);
    }
    StableSort.SortDescCorrect(subscriptions, CreatedKey);
    var sorted := StableSort.SortDesc(subscriptions, CreatedKey);
    var latest := Pick(sorted);
    writes := Writes(inserted, Some(RowFor(user.value.id, latest)));
    response := Refreshed(latest.status, latest.id);
  }
}
