/**
 * The services together: every operation as one transition of the store,
 * the properties that hold across all of them, and the payout workflow
 * from dispatch to settled orders.
 */
module Workflow {
  import opened Wrappers
  import opened Tables
  import opened Records
  import OrderService
  import AffiliateService
  import MerchantService
  import PayoutOrderJob
  import MerchantController

  /** One call into the services, with the oracles' answers and the clock as arguments. */
  datatype Operation =
    | ProcessOrder(payload: OrderService.Payload, now: int)
    | RegisterAffiliate(merchantId: nat, email: string, name: string, commissionRate: real, code: string)
    | FindOrCreateAffiliate(data: AffiliateService.AffiliateData, forMerchant: nat)
    | RegisterMerchant(merchant: MerchantService.MerchantData)
    | UpdateMerchant(userId: nat, update: MerchantService.MerchantData)
    | RunPayoutJob(orderId: nat, gatewaySucceeds: bool)

  /**
   * The store after `op`. An operation handed a model that is not in the
   * store (a merchant, user or order id with no row) does nothing.
   */
  function Apply(s: Store, op: Operation): Store
  {
    match op
    case ProcessOrder(p, now) => OrderService.ProcessOrder(s, p, now).store
    case RegisterAffiliate(m, email, name, rate, code) =>
      if m in s.merchants.rows then AffiliateService.Register(s, m, email, name, rate, code).store else s
    case FindOrCreateAffiliate(data, m) =>
      if m in s.merchants.rows then AffiliateService.FindOrCreateAffiliate(s, data, m).store else s
    case RegisterMerchant(data) => MerchantService.Register(s, data).store
    case UpdateMerchant(u, data) =>
      if u in s.users.rows then MerchantService.UpdateMerchant(s, u, data).store else s
    case RunPayoutJob(id, ok) =>
      if id in s.orders.rows then PayoutOrderJob.Handle(s, id, ok).store else s
  }

  /** Every operation keeps the store well-formed. */
  lemma ApplyKeepsValid(s: Store, op: Operation)
    requires Valid(s)
    ensures Valid(Apply(s, op))
  {
    match op
    case ProcessOrder(p, now) => OrderService.ProcessOrderKeepsValid(s, p, now);
    case RegisterAffiliate(m, email, name, rate, code) =>
      if m in s.merchants.rows { AffiliateService.RegisterKeepsValid(s, m, email, name, rate, code); }
    case FindOrCreateAffiliate(data, m) =>
      if m in s.merchants.rows { AffiliateService.FindOrCreateKeepsValid(s, data, m); }
    case RegisterMerchant(data) => MerchantService.RegisterKeepsValid(s, data);
    case UpdateMerchant(u, data) =>
      if u in s.users.rows { MerchantService.UpdateMerchantKeepsValid(s, u, data); }
    case RunPayoutJob(id, ok) =>
      if id in s.orders.rows { PayoutOrderJob.HandleKeepsValid(s, id, ok); }
  }

  /**
   * An order, once recorded, stays; of its fields only the payout status
   * ever changes, and only from UNPAID to PAID.
   */
  predicate OrderKept(s: Store, s': Store, k: nat)
  {
    k in s.orders.rows ==>
      && k in s'.orders.rows
      && s'.orders.rows[k] == s.orders.rows[k].(payoutStatus := s'.orders.rows[k].payoutStatus)
      && (s.orders.rows[k].payoutStatus == Paid ==> s'.orders.rows[k].payoutStatus == Paid)
  }

  /** No operation deletes an order, revises its commission or other fields, or turns PAID back to UNPAID. */
  lemma ApplyKeepsOrders(s: Store, op: Operation, k: nat)
    ensures OrderKept(s, Apply(s, op), k)
  {
  }

  /** Paid orders stay paid whatever runs. */
  lemma PaidStaysPaid(s: Store, op: Operation, k: nat)
    requires IsPaid(s, k)
    ensures IsPaid(Apply(s, op), k)
  {
  }

  /** One queued payout job, run against the given gateway answer. */
  function Job(s: Store, id: nat, ok: bool): Store
  {
    if id in s.orders.rows then PayoutOrderJob.Handle(s, id, ok).store else s
  }

  /** The jobs for `ids` run one after another, job i seeing gateway answer `outcomes[i]`. */
  function RunJobs(s: Store, ids: seq<nat>, outcomes: seq<bool>): Store
    requires |outcomes| == |ids|
    decreases |ids|
  {
    if ids == [] then s
    else RunJobs(Job(s, ids[0], outcomes[0]), ids[1..], outcomes[1..])
  }

  /** In a well-formed store the job for any attributed order reaches the gateway. */
  lemma PayeeResolves(s: Store, id: nat)
    requires Valid(s) && id in s.orders.rows && s.orders.rows[id].affiliateId.Some?
    ensures PayoutOrderJob.PayeeEmail(s, s.orders.rows[id]).Some?
  {
  }

  /** A job, whichever order it is for, leaves a PAID order PAID. */
  lemma JobKeepsPaid(s: Store, id: nat, ok: bool, k: nat)
    requires IsPaid(s, k)
    ensures IsPaid(Job(s, id, ok), k)
  {
    if id in s.orders.rows {
      PayoutOrderJob.HandleMonotone(s, id, ok, k);
    }
  }

  /** A run of jobs leaves a PAID order PAID. */
  lemma {:induction false} RunJobsKeepsPaid(s: Store, ids: seq<nat>, outcomes: seq<bool>, k: nat)
    requires |outcomes| == |ids| && IsPaid(s, k)
    ensures IsPaid(RunJobs(s, ids, outcomes), k)
    decreases |ids|
  {
    if ids != [] {
      JobKeepsPaid(s, ids[0], outcomes[0], k);
      RunJobsKeepsPaid(Job(s, ids[0], outcomes[0]), ids[1..], outcomes[1..], k);
    }
  }

  /** Any run of payout jobs keeps the store well-formed. */
  lemma {:induction false} RunJobsKeepsValid(s: Store, ids: seq<nat>, outcomes: seq<bool>)
    requires Valid(s) && |outcomes| == |ids|
    ensures Valid(RunJobs(s, ids, outcomes))
    decreases |ids|
  {
    if ids != [] {
      if ids[0] in s.orders.rows {
        PayoutOrderJob.HandleKeepsValid(s, ids[0], outcomes[0]);
      }
      RunJobsKeepsValid(Job(s, ids[0], outcomes[0]), ids[1..], outcomes[1..]);
    }
  }

  /** The job for order `id` can reach the affiliate user it pays. */
  predicate Reachable(s: Store, id: nat)
  {
    id in s.orders.rows && PayoutOrderJob.PayeeEmail(s, s.orders.rows[id]).Some?
  }

  /** A job pays its order when the payee is reachable and the gateway succeeds, and keeps every payee reachable. */
  lemma JobPaysReachable(s: Store, id: nat, ok: bool)
    requires Reachable(s, id)
    ensures ok ==> IsPaid(Job(s, id, ok), id)
    ensures forall k :: Reachable(s, k) ==> Reachable(Job(s, id, ok), k)
  {
    var r := PayoutOrderJob.Handle(s, id, ok);
    forall k | Reachable(s, k) ensures Reachable(r.store, k) {
      PayoutOrderJob.HandleMonotone(s, id, ok, k);
    }
  }

  /** Running jobs for orders with a reachable payee pays every one whose gateway call succeeds. */
  lemma {:induction false} RunJobsPays(s: Store, ids: seq<nat>, outcomes: seq<bool>)
    requires |outcomes| == |ids|
    requires forall i :: 0 <= i < |ids| ==> Reachable(s, ids[i])
    ensures forall i :: 0 <= i < |ids| && outcomes[i] ==> IsPaid(RunJobs(s, ids, outcomes), ids[i])
    decreases |ids|
  {
    if ids != [] {
      var s1 := Job(s, ids[0], outcomes[0]);
      JobPaysReachable(s, ids[0], outcomes[0]);
      var rest, restOut := ids[1..], outcomes[1..];
      forall i | 0 <= i < |rest| ensures Reachable(s1, rest[i]) {
        assert rest[i] == ids[i + 1];
      }
      RunJobsPays(s1, rest, restOut);
      if outcomes[0] {
        RunJobsKeepsPaid(s1, rest, restOut, ids[0]);
      }
      var last := RunJobs(s, ids, outcomes);
      assert last == RunJobs(s1, rest, restOut);
      forall i | 0 <= i < |ids| && outcomes[i] ensures IsPaid(last, ids[i]) {
        if i > 0 {
          assert rest[i - 1] == ids[i] && restOut[i - 1] == outcomes[i];
        }
      }
    }
  }

  /** A gateway that succeeds `n` times in a row. */
  function AllSucceed(n: nat): (r: seq<bool>)
    ensures |r| == n && forall i :: 0 <= i < n ==> r[i]
  {
    if n == 0 then [] else AllSucceed(n - 1) + [true]
  }

  /**
   * payout(affiliate) followed by a worker running each dispatched job
   * against a gateway that succeeds: afterwards every order of the
   * affiliate is PAID.
   */
  method PayoutAndSettle(s: Store, affiliateId: nat) returns (dispatched: seq<nat>, settled: Store)
    requires Valid(s)
    ensures Valid(settled)
    ensures forall k :: k in s.orders.rows && s.orders.rows[k].affiliateId == Some(affiliateId) ==> IsPaid(settled, k)
  {
    dispatched := MerchantService.Payout(s, affiliateId);
    var outcomes := AllSucceed(|dispatched|);
    SettleDispatched(s, affiliateId, dispatched, outcomes);
    settled := RunJobs(s, dispatched, outcomes);
  }

  /** The jobs payout() dispatched, each succeeding, leave no order of the affiliate unpaid. */
  lemma SettleDispatched(s: Store, affiliateId: nat, dispatched: seq<nat>, outcomes: seq<bool>)
    requires Valid(s)
    requires forall id :: id in dispatched <==> MerchantService.Payable(s, affiliateId, id)
    requires |outcomes| == |dispatched| && forall i :: 0 <= i < |outcomes| ==> outcomes[i]
    ensures Valid(RunJobs(s, dispatched, outcomes))
    ensures forall k :: k in s.orders.rows && s.orders.rows[k].affiliateId == Some(affiliateId) ==>
      IsPaid(RunJobs(s, dispatched, outcomes), k)
  {
    forall i | 0 <= i < |dispatched|
      ensures dispatched[i] in s.orders.rows && s.orders.rows[dispatched[i]].affiliateId.Some?
    {
      assert dispatched[i] in dispatched;
    }
    RunJobsKeepsValid(s, dispatched, outcomes);
    forall i | 0 <= i < |dispatched| ensures Reachable(s, dispatched[i]) {
      PayeeResolves(s, dispatched[i]);
    }
    RunJobsPays(s, dispatched, outcomes);
    forall k | k in s.orders.rows && s.orders.rows[k].affiliateId == Some(affiliateId)
      ensures IsPaid(RunJobs(s, dispatched, outcomes), k)
    {
      PaidOrDispatched(s, affiliateId, dispatched, k);
      if IsPaid(s, k) {
        RunJobsKeepsPaid(s, dispatched, outcomes, k);
      }
    }
  }

  /** Every order of the affiliate is either PAID already or has a job in `dispatched`. */
  lemma PaidOrDispatched(s: Store, affiliateId: nat, dispatched: seq<nat>, k: nat)
    requires forall id :: id in dispatched <==> MerchantService.Payable(s, affiliateId, id)
    requires k in s.orders.rows && s.orders.rows[k].affiliateId == Some(affiliateId)
    ensures IsPaid(s, k) || exists i :: 0 <= i < |dispatched| && dispatched[i] == k
  {
    if !IsPaid(s, k) {
      assert k in dispatched;
    }
  }

  /** The payout job leaves the order statistics as they were: no status filter applies. */
  lemma PayoutJobKeepsStats(s: Store, orderId: nat, gatewaySucceeds: bool, from: int, to: int)
    requires orderId in s.orders.rows
    ensures MerchantController.OrderStats(PayoutOrderJob.Handle(s, orderId, gatewaySucceeds).store, from, to)
            == MerchantController.OrderStats(s, from, to)
  {
    var s' := PayoutOrderJob.Handle(s, orderId, gatewaySucceeds).store;
    forall k: nat ensures MerchantController.Seen(s'.orders, k, from, to) == MerchantController.Seen(s.orders, k, from, to) {
    }
    MerchantController.StatsDependOnRangeOnly(s', s, from, to);
  }

  /** An order recorded at a time outside the range leaves that range's statistics as they were. */
  lemma OrderOutsideRangeKeepsStats(s: Store, p: OrderService.Payload, now: int, from: int, to: int)
    requires now < from || to < now
    ensures MerchantController.OrderStats(OrderService.ProcessOrder(s, p, now).store, from, to)
            == MerchantController.OrderStats(s, from, to)
  {
    var r := OrderService.ProcessOrder(s, p, now);
    if r.out.Ok? && r.out.value.Recorded? {
      var id := r.out.value.id;
      assert r.store.orders.rows == s.orders.rows[id := r.store.orders.rows[id]];
      assert r.store.orders.rows[id].createdAt == now;
      forall k: nat ensures MerchantController.Seen(r.store.orders, k, from, to) == MerchantController.Seen(s.orders, k, from, to) {
      }
    }
    MerchantController.StatsDependOnRangeOnly(r.store, s, from, to);
  }
}
