/**
 * OrderService: attribution of an incoming webhook order to a merchant
 * and an affiliate, and the order row it records.
 */
module OrderService {
  import opened Wrappers
  import opened Tables
  import opened Money
  import opened Records
  import AffiliateService

  /** The webhook fields processOrder reads. */
  datatype Payload = Payload(
    orderId: string,
    subtotalPrice: real,
    merchantDomain: string,
    discountCode: string,
    customerEmail: string,
    customerName: string)

  /**
   * How processOrder returned. It returns nothing in all three cases; the
   * model names them so that properties can tell them apart.
   */
  datatype Disposition = AlreadyRecorded | Recorded(id: nat) | AffiliateRejected

  /**
   * getMerchantByDomain: the first merchant with the domain. The method is
   * declared to return a Merchant, so handing back null for an unknown
   * domain raises a TypeError.
   */
  function GetMerchantByDomain(s: Store, domain: string): (r: Result<nat, Error>)
    ensures r.Ok? ==> r.value in s.merchants.rows && s.merchants.rows[r.value].domain == domain
    ensures r.Err? <==> forall k :: k in s.merchants.rows ==> s.merchants.rows[k].domain != domain
    ensures r.Err? ==> r.error == MerchantNotFound
  {
    match MerchantByDomain(s, domain)
    case Some(id) => Ok(id)
    case None => Err(MerchantNotFound)
  }

  /** getMerchantIdByDomain: the first merchant's id for the domain, or 0 when there is none. */
  function GetMerchantIdByDomain(s: Store, domain: string): (r: nat)
    ensures (exists k :: k in s.merchants.rows && s.merchants.rows[k].domain == domain) ==>
      r in s.merchants.rows && s.merchants.rows[r].domain == domain
    ensures (forall k :: k in s.merchants.rows ==> s.merchants.rows[k].domain != domain) ==> r == 0
  {
    match MerchantByDomain(s, domain)
    case Some(id) => id
    case None => 0
  }

  /** The commission rate offered for a brand-new affiliate: `round(subtotal_price * 0.1, 2)`. */
  function OfferedRate(subtotalPrice: real): (r: real)
    ensures WholeCents(r)
    ensures subtotalPrice >= 0.0 ==> r >= 0.0
    ensures r - subtotalPrice * 0.1 <= 0.005 && subtotalPrice * 0.1 - r <= 0.005
  {
    Round2(subtotalPrice * 0.1)
  }

  /** The affiliate request processOrder builds from the payload. */
  function AffiliateRequest(p: Payload): AffiliateService.AffiliateData
  {
    AffiliateService.AffiliateData(Some(p.customerName), p.customerEmail, OfferedRate(p.subtotalPrice), p.discountCode)
  }

  /** Whether the new order `o` is what processOrder records for `p` with the affiliate row `a`. */
  predicate RecordedFrom(o: Order, p: Payload, merchantId: nat, affiliateId: nat, a: Affiliate, now: int)
  {
    && o.orderId == p.orderId
    && o.externalOrderId == p.orderId
    && o.merchantId == merchantId
    && o.affiliateId == Some(affiliateId)
    && o.subtotal == p.subtotalPrice
    && o.commissionOwed == Commission(p.subtotalPrice, a.commissionRate)
    && o.discountCode == p.discountCode
    && o.payoutStatus == Unpaid
    && o.createdAt == now
  }

  /**
   * `Order::create(...)` at the end of processOrder: the order for `p`,
   * attributed to the merchant owning the domain and to `affiliateId`.
   */
  function RecordOrder(s: Store, p: Payload, merchantId: nat, affiliateId: nat, now: int): (r: (Store, nat))
    requires affiliateId in s.affiliates.rows
    requires MerchantByDomain(s, p.merchantDomain) == Some(merchantId)
    ensures r.0 == s.(orders := r.0.orders)
    ensures r.1 !in s.orders.rows && r.1 in r.0.orders.rows
    ensures r.0.orders.rows == s.orders.rows[r.1 := r.0.orders.rows[r.1]]
    ensures RecordedFrom(r.0.orders.rows[r.1], p, merchantId, affiliateId, s.affiliates.rows[affiliateId], now)
  {
    var order := Order(
      p.orderId, p.orderId,
      GetMerchantIdByDomain(s, p.merchantDomain),
      Some(affiliateId),
      p.subtotalPrice,
      Commission(p.subtotalPrice, s.affiliates.rows[affiliateId].commissionRate),
      p.discountCode,
      Unpaid,
      now);
    CreateOrder(s, order)
  }

  /**
   * processOrder(data) at time `now`: skip an order already recorded under
   * this external id, resolve the merchant by domain (raising for an
   * unknown one), find or create its affiliate, and record the order with
   * the commission at the affiliate's stored rate. Only
   * AffiliateCreateException is absorbed; every other error propagates.
   */
  function ProcessOrder(s: Store, p: Payload, now: int): (r: Step<Disposition>)
    ensures OrderByExternalId(s, p.orderId).Some? <==> r.out == Ok(AlreadyRecorded)
    ensures r.out == Ok(AlreadyRecorded) ==> r.store == s
    ensures OrderByExternalId(s, p.orderId).None? && MerchantByDomain(s, p.merchantDomain).Some?
            && AffiliateService.FindOrCreateAffiliate(s, AffiliateRequest(p), MerchantByDomain(s, p.merchantDomain).value).out.Err? ==>
      r == Step(s, Err(AffiliateService.FindOrCreateAffiliate(s, AffiliateRequest(p), MerchantByDomain(s, p.merchantDomain).value).out.error))
    ensures OrderByExternalId(s, p.orderId).None? && MerchantByDomain(s, p.merchantDomain).None? ==>
      r == Step(s, Err(MerchantNotFound))
    ensures r.out.Err? ==> r.store == s
    ensures r.out.Err? ==> r.out.error in {MerchantNotFound, Query(UserEmail), Query(AffiliateDiscountCode)}
    ensures r.out != Ok(AffiliateRejected)
    ensures !(r.out.Ok? && r.out.value.Recorded?) ==> r.store.orders == s.orders
    ensures r.store.merchants == s.merchants
    ensures OrderByExternalId(s, p.orderId).None? && MerchantByDomain(s, p.merchantDomain).Some? ==>
      (r.out.Ok? && r.out.value.Recorded? <==>
        AffiliateService.FindOrCreateAffiliate(s, AffiliateRequest(p), MerchantByDomain(s, p.merchantDomain).value).out.Ok?)
    ensures r.out.Ok? && r.out.value.Recorded? ==>
      var id := r.out.value.id;
      && OrderByExternalId(s, p.orderId).None?
      && MerchantByDomain(s, p.merchantDomain).Some?
      && id !in s.orders.rows && id in r.store.orders.rows
      && r.store.orders.rows == s.orders.rows[id := r.store.orders.rows[id]]
      && var o := r.store.orders.rows[id];
      && o.affiliateId.Some?
      && o.affiliateId.value in r.store.affiliates.rows
      && r.store.affiliates.rows[o.affiliateId.value].merchantId == MerchantByDomain(s, p.merchantDomain).value
      && RecordedFrom(o, p, MerchantByDomain(s, p.merchantDomain).value, o.affiliateId.value,
                      r.store.affiliates.rows[o.affiliateId.value], now)
    ensures r.out.Ok? && r.out.value.Recorded? && AffiliateOfMerchant(s, MerchantByDomain(s, p.merchantDomain).value).Some? ==>
      r.store == s.(orders := r.store.orders)
    ensures r.out.Ok? && r.out.value.Recorded? && AffiliateOfMerchant(s, MerchantByDomain(s, p.merchantDomain).value).None? ==>
      var aid := r.store.orders.rows[r.out.value.id].affiliateId.value;
      var uid := r.store.affiliates.rows[aid].userId;
      && aid !in s.affiliates.rows
      && r.store.affiliates.rows == s.affiliates.rows[aid := Affiliate(uid, MerchantByDomain(s, p.merchantDomain).value, OfferedRate(p.subtotalPrice), p.discountCode)]
      && uid !in s.users.rows
      && r.store.users.rows == s.users.rows[uid := User(p.customerName, p.customerEmail, NoPassword, AffiliateUser)]
  {
    if OrderByExternalId(s, p.orderId).Some? then Step(s, Ok(AlreadyRecorded))
    else
      match GetMerchantByDomain(s, p.merchantDomain)
      case Err(e) => Step(s, Err(e))
      case Ok(merchantId) =>
        var found := AffiliateService.FindOrCreateAffiliate(s, AffiliateRequest(p), merchantId);
        match found.out
        case Err(AffiliateCreate(_)) => Step(found.store, Ok(AffiliateRejected))
        case Err(e) => Step(found.store, Err(e))
        case Ok(affiliateId) =>
          var (s', id) := RecordOrder(found.store, p, merchantId, affiliateId, now);
          Step(s', Ok(Recorded(id)))
  }

  /**
   * A new external id for a known domain is always recorded when the
   * merchant already has an affiliate, and otherwise exactly when the
   * customer's email and the discount code are both still free.
   */
  lemma ProcessOrderRecords(s: Store, p: Payload, now: int)
    requires OrderByExternalId(s, p.orderId).None? && MerchantByDomain(s, p.merchantDomain).Some?
    ensures var r := ProcessOrder(s, p, now);
      r.out.Ok? && r.out.value.Recorded? <==>
        || AffiliateOfMerchant(s, MerchantByDomain(s, p.merchantDomain).value).Some?
        || (&& (forall k :: k in s.users.rows ==> s.users.rows[k].email != p.customerEmail)
            && (forall k :: k in s.affiliates.rows ==> s.affiliates.rows[k].discountCode != p.discountCode))
  {
  }

  /**
   * An order attributed to the merchant's existing affiliate owes the
   * subtotal times THAT affiliate's stored rate; the rate offered from
   * this order's subtotal plays no part, and no affiliate is written.
   */
  lemma CommissionAtExistingRate(s: Store, p: Payload, now: int)
    requires ProcessOrder(s, p, now).out.Ok? && ProcessOrder(s, p, now).out.value.Recorded?
    requires AffiliateOfMerchant(s, MerchantByDomain(s, p.merchantDomain).value).Some?
    ensures var r := ProcessOrder(s, p, now);
      var a := AffiliateOfMerchant(s, MerchantByDomain(s, p.merchantDomain).value).value;
      && r.store.affiliates == s.affiliates
      && r.store.orders.rows[r.out.value.id].affiliateId == Some(a)
      && r.store.orders.rows[r.out.value.id].commissionOwed == Commission(p.subtotalPrice, s.affiliates.rows[a].commissionRate)
  {
  }

  /**
   * An order whose merchant had no affiliate creates one at the offered
   * rate `round(subtotal_price * 0.1, 2)` and owes the subtotal times it.
   */
  lemma CommissionAtOfferedRate(s: Store, p: Payload, now: int)
    requires OrderByExternalId(s, p.orderId).None? && MerchantByDomain(s, p.merchantDomain).Some?
    requires AffiliateOfMerchant(s, MerchantByDomain(s, p.merchantDomain).value).None?
    requires forall k :: k in s.users.rows ==> s.users.rows[k].email != p.customerEmail
    requires forall k :: k in s.affiliates.rows ==> s.affiliates.rows[k].discountCode != p.discountCode
    ensures ProcessOrder(s, p, now).out.Ok? && ProcessOrder(s, p, now).out.value.Recorded?
    ensures var r := ProcessOrder(s, p, now);
      var o := r.store.orders.rows[r.out.value.id];
      && o.affiliateId.value !in s.affiliates.rows
      && r.store.affiliates.rows[o.affiliateId.value].commissionRate == OfferedRate(p.subtotalPrice)
      && o.commissionOwed == Commission(p.subtotalPrice, OfferedRate(p.subtotalPrice))
  {
    var m := MerchantByDomain(s, p.merchantDomain).value;
    assert GetMerchantByDomain(s, p.merchantDomain) == Ok(m);
    var found := AffiliateService.FindOrCreateAffiliate(s, AffiliateRequest(p), m);
    assert found.out.Ok?;
    var a := found.out.value;
    assert found.store.affiliates.rows[a].commissionRate == OfferedRate(p.subtotalPrice);
    var rec := RecordOrder(found.store, p, m, a, now);
    assert ProcessOrder(s, p, now) == Step(rec.0, Ok(Recorded(rec.1)));
  }


  /**
   * Each call changes the orders with a given external id only by adding
   * the one order it records, and only when there was none.
   */
  lemma ExternalIdsAfterProcessOrder(s: Store, p: Payload, now: int, x: string)
    ensures var r := ProcessOrder(s, p, now);
      if r.out.Ok? && r.out.value.Recorded? && x == p.orderId then
        OrdersWithExternalId(s, x) == {} && OrdersWithExternalId(r.store, x) == {r.out.value.id}
      else
        OrdersWithExternalId(r.store, x) == OrdersWithExternalId(s, x)
  {
  }

  /**
   * Redelivery is harmless: once an order has been recorded (now or
   * before), processing the same payload again writes nothing, and the
   * two calls together leave at most one order with that external id.
   */
  lemma ProcessOrderIdempotent(s: Store, p: Payload, now: int, later: int)
    requires ProcessOrder(s, p, now).out.Ok?
    requires |OrdersWithExternalId(s, p.orderId)| <= 1
    ensures var r := ProcessOrder(s, p, now);
      && ProcessOrder(r.store, p, later) == Step(r.store, Ok(AlreadyRecorded))
      && |OrdersWithExternalId(r.store, p.orderId)| == 1
  {
    var r := ProcessOrder(s, p, now);
    ExternalIdsAfterProcessOrder(s, p, now, p.orderId);
    if r.out.value.Recorded? {
      assert OrderByExternalId(r.store, p.orderId).Some?;
    } else {
      var k := OrderByExternalId(s, p.orderId).value;
      assert k in OrdersWithExternalId(s, p.orderId);
    }
  }

  /** processOrder keeps the store well-formed. */
  lemma ProcessOrderKeepsValid(s: Store, p: Payload, now: int)
    requires Valid(s)
    ensures Valid(ProcessOrder(s, p, now).store)
  {
    var r := ProcessOrder(s, p, now);
    if OrderByExternalId(s, p.orderId).None? && MerchantByDomain(s, p.merchantDomain).Some? {
      var m := MerchantByDomain(s, p.merchantDomain).value;
      assert GetMerchantByDomain(s, p.merchantDomain) == Ok(m);
      var found := AffiliateService.FindOrCreateAffiliate(s, AffiliateRequest(p), m);
      AffiliateService.FindOrCreateKeepsValid(s, AffiliateRequest(p), m);
      if found.out.Ok? {
        var rec := RecordOrder(found.store, p, m, found.out.value, now);
        assert r.store == rec.0;
        AddOrderKeepsValid(found.store, rec.0, rec.1, rec.0.orders.rows[rec.1]);
      }
    }
  }
}
