/**
 * PayoutOrderJob: pay one order's commission through the payout gateway
 * and mark the order PAID in the same transaction.
 */
module PayoutOrderJob {
  import opened Wrappers
  import opened Tables
  import opened Records

  /** One call to the gateway: sendPayout(email, amount). */
  datatype PayoutRequest = PayoutRequest(email: string, amount: real)

  /** One run of the job: the committed store, the gateway calls made, and how it ended. */
  datatype JobRun = JobRun(store: Store, calls: seq<PayoutRequest>, out: Result<(), Error>)

  /** `$order->affiliate->user->email`, when each link resolves. */
  function PayeeEmail(s: Store, o: Order): (r: Option<string>)
    ensures r.Some? <==>
      && o.affiliateId.Some?
      && o.affiliateId.value in s.affiliates.rows
      && s.affiliates.rows[o.affiliateId.value].userId in s.users.rows
    ensures r.Some? ==> r.value == s.users.rows[s.affiliates.rows[o.affiliateId.value].userId].email
  {
    match o.affiliateId
    case None => None
    case Some(aid) =>
      if aid in s.affiliates.rows && s.affiliates.rows[aid].userId in s.users.rows then
        Some(s.users.rows[s.affiliates.rows[aid].userId].email)
      else None
  }

  /**
   * handle() for order `orderId`; `gatewaySucceeds` is whether sendPayout
   * returns normally. The gateway is called once with the affiliate user's
   * email and the commission owed; on success the order becomes PAID and
   * is committed, otherwise the transaction rolls back and a
   * RuntimeException is raised. A missing affiliate or user fails the same
   * way before the gateway is reached (Laravel turns the null property read
   * into an exception). The current status is never consulted.
   */
  function Handle(s: Store, orderId: nat, gatewaySucceeds: bool): (r: JobRun)
    requires orderId in s.orders.rows
    ensures var o := s.orders.rows[orderId];
      && (PayeeEmail(s, o).Some? ==> r.calls == [PayoutRequest(PayeeEmail(s, o).value, o.commissionOwed)])
      && (PayeeEmail(s, o).None? ==> r.calls == [])
    ensures r.out.Ok? <==> r.calls != [] && gatewaySucceeds
    ensures r.out.Err? ==> r.out.error == PayoutFailed && r.store == s
    ensures r.out.Ok? ==>
      && r.store == s.(orders := r.store.orders)
      && r.store.orders.next == s.orders.next
      && r.store.orders.rows == s.orders.rows[orderId := s.orders.rows[orderId].(payoutStatus := Paid)]
  {
    var o := s.orders.rows[orderId];
    match PayeeEmail(s, o)
    case None => JobRun(s, [], Err(PayoutFailed))
    case Some(email) =>
      var call := PayoutRequest(email, o.commissionOwed);
      if gatewaySucceeds then
        JobRun(s.(orders := Update(s.orders, orderId, o.(payoutStatus := Paid))), [call], Ok(()))
      else
        JobRun(s, [call], Err(PayoutFailed))
  }

  /** No run of the job turns a PAID order back to UNPAID, and only its own order can change status. */
  lemma HandleMonotone(s: Store, orderId: nat, gatewaySucceeds: bool, k: nat)
    requires orderId in s.orders.rows
    ensures var r := Handle(s, orderId, gatewaySucceeds);
      && (IsPaid(s, k) ==> IsPaid(r.store, k))
      && (k != orderId ==> (IsPaid(r.store, k) <==> IsPaid(s, k)))
      && (k in s.orders.rows <==> k in r.store.orders.rows)
  {
  }

  /**
   * There is no status guard: running the job for an order already PAID
   * calls the gateway again for the full commission and leaves it PAID.
   */
  lemma HandlePaysPaidOrderAgain(s: Store, orderId: nat)
    requires IsPaid(s, orderId)
    requires PayeeEmail(s, s.orders.rows[orderId]).Some?
    ensures var r := Handle(s, orderId, true);
      && |r.calls| == 1
      && r.calls[0].amount == s.orders.rows[orderId].commissionOwed
      && r.store == s
  {
  }

  /**
   * A failed attempt leaves nothing behind: retrying it makes exactly the
   * same gateway call as the first attempt did, and on success the outcome
   * is as if the failure had never happened.
   */
  lemma RetryAfterFailure(s: Store, orderId: nat)
    requires orderId in s.orders.rows
    ensures var failed := Handle(s, orderId, false);
      var retried := Handle(failed.store, orderId, true);
      && failed.calls == retried.calls
      && retried == Handle(s, orderId, true)
  {
  }

  /** The job keeps the store well-formed. */
  lemma HandleKeepsValid(s: Store, orderId: nat, gatewaySucceeds: bool)
    requires Valid(s) && orderId in s.orders.rows
    ensures Valid(Handle(s, orderId, gatewaySucceeds).store)
  {
    var r := Handle(s, orderId, gatewaySucceeds);
    if r.out.Ok? {
      SetPayoutStatusKeepsValid(s, r.store, orderId, Paid);
    }
  }
}
