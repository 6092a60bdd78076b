/**
 * AffiliateService: explicit affiliate registration, and the
 * find-or-create resolution the order workflow relies on.
 */
module AffiliateService {
  import opened Wrappers
  import opened Tables
  import opened Records

  /** The array handed to findOrCreateAffiliate; an absent name is stored as ''. */
  datatype AffiliateData = AffiliateData(name: Option<string>, email: string, commissionRate: real, discountCode: string)

  /**
   * register(merchant, email, name, commissionRate). `code` is what the
   * discount-code issuer returns for the merchant. The new affiliate is
   * stored with the MERCHANT's user id, and a user missing for the email
   * is created with type MERCHANT, both as the service is written.
   */
  function Register(s: Store, merchantId: nat, email: string, name: string, commissionRate: real, code: string): (r: Step<nat>)
    requires merchantId in s.merchants.rows
    ensures EmailUserHasMerchant(s, email) <==> r.out == Err(AffiliateCreate(EmailOwnsMerchant))
    ensures !EmailUserHasMerchant(s, email) && EmailUserHasAffiliate(s, email) <==> r.out == Err(AffiliateCreate(EmailOwnsAffiliate))
    ensures !EmailUserHasMerchant(s, email) && !EmailUserHasAffiliate(s, email)
            && (exists k :: k in s.affiliates.rows && s.affiliates.rows[k].discountCode == code)
            <==> r.out == Err(Query(AffiliateDiscountCode))
    ensures r.out.Err? ==> r.store == s
    ensures r.out.Err? ==>
      r.out.error in {AffiliateCreate(EmailOwnsMerchant), AffiliateCreate(EmailOwnsAffiliate), Query(AffiliateDiscountCode)}
    ensures r.out.Ok? ==>
      var aid := r.out.value;
      && aid !in s.affiliates.rows
      && r.store.affiliates.rows == s.affiliates.rows[aid := Affiliate(s.merchants.rows[merchantId].userId, merchantId, commissionRate, code)]
      && r.store.merchants == s.merchants && r.store.orders == s.orders
    ensures r.out.Ok? && UserByEmail(s, email).Some? ==> r.store.users == s.users
    ensures r.out.Ok? && UserByEmail(s, email).None? ==>
      exists uid: nat :: uid !in s.users.rows && r.store.users.rows == s.users.rows[uid := User(name, email, RandomPassword, MerchantUser)]
  {
    if EmailUserHasMerchant(s, email) then Step(s, Err(AffiliateCreate(EmailOwnsMerchant)))
    else if EmailUserHasAffiliate(s, email) then Step(s, Err(AffiliateCreate(EmailOwnsAffiliate)))
    else
      var merchant := s.merchants.rows[merchantId];
      match CreateAffiliate(s, Affiliate(merchant.userId, merchantId, commissionRate, code))
      case Err(e) => Step(s, Err(e))
      case Ok((s1, aid)) =>
        var (s2, _) := FirstOrCreateUser(s1, User(name, email, RandomPassword, MerchantUser));
        Step(s2, Ok(aid))
  }

  /**
   * findOrCreateAffiliate(data, merchant): the merchant's first affiliate,
   * whatever email is asked for; otherwise a new AFFILIATE user and a new
   * affiliate, created in one transaction.
   */
  function FindOrCreateAffiliate(s: Store, data: AffiliateData, merchantId: nat): (r: Step<nat>)
    ensures AffiliateOfMerchant(s, merchantId).Some? ==> r == Step(s, Ok(AffiliateOfMerchant(s, merchantId).value))
    ensures r.out.Ok? ==> r.out.value in r.store.affiliates.rows && r.store.affiliates.rows[r.out.value].merchantId == merchantId
    ensures r.out.Err? ==> r.store == s
    ensures r.out.Err? ==> r.out.error == Query(UserEmail) || r.out.error == Query(AffiliateDiscountCode)
    ensures AffiliateOfMerchant(s, merchantId).None? ==>
      (r.out == Err(Query(UserEmail)) <==> exists k :: k in s.users.rows && s.users.rows[k].email == data.email)
    ensures AffiliateOfMerchant(s, merchantId).None? ==>
      (r.out.Ok? <==>
        && (forall k :: k in s.users.rows ==> s.users.rows[k].email != data.email)
        && (forall k :: k in s.affiliates.rows ==> s.affiliates.rows[k].discountCode != data.discountCode))
    ensures r.store.merchants == s.merchants && r.store.orders == s.orders
    ensures AffiliateOfMerchant(s, merchantId).None? && r.out.Ok? ==>
      forall k :: k in s.affiliates.rows ==> s.affiliates.rows[k].discountCode != data.discountCode
    ensures AffiliateOfMerchant(s, merchantId).None? && r.out.Ok? ==>
      var aid := r.out.value;
      var uid := r.store.affiliates.rows[aid].userId;
      && aid !in s.affiliates.rows
      && r.store.affiliates.rows == s.affiliates.rows[aid := Affiliate(uid, merchantId, data.commissionRate, data.discountCode)]
      && uid !in s.users.rows
      && r.store.users.rows == s.users.rows[uid := User(data.name.GetOr(""), data.email, NoPassword, AffiliateUser)]
  {
    match AffiliateOfMerchant(s, merchantId)
    case Some(aid) => Step(s, Ok(aid))
    case None =>
      match CreateUser(s, User(data.name.GetOr(""), data.email, NoPassword, AffiliateUser))
      case Err(e) => Step(s, Err(e))
      case Ok((s1, uid)) =>
        match CreateAffiliate(s1, Affiliate(uid, merchantId, data.commissionRate, data.discountCode))
        case Err(e) => Step(s, Err(e))  // the transaction rolls the new user back
        case Ok((s2, aid)) => Step(s2, Ok(aid))
  }

  /**
   * Resolution never gives a merchant a second affiliate: an existing set
   * of affiliates is left alone, and a merchant without one gets at most one.
   */
  lemma FindOrCreateAtMostOneAffiliate(s: Store, data: AffiliateData, merchantId: nat)
    ensures var r := FindOrCreateAffiliate(s, data, merchantId);
      && (AffiliatesOf(s, merchantId) != {} ==> AffiliatesOf(r.store, merchantId) == AffiliatesOf(s, merchantId))
      && (AffiliatesOf(s, merchantId) == {} ==> |AffiliatesOf(r.store, merchantId)| <= 1)
  {
    var r := FindOrCreateAffiliate(s, data, merchantId);
    if AffiliatesOf(s, merchantId) != {} {
      var k :| k in AffiliatesOf(s, merchantId);
      assert AffiliateOfMerchant(s, merchantId).Some?;
    } else if r.out.Ok? {
      var aid := r.out.value;
      forall k | k in s.affiliates.rows
        ensures s.affiliates.rows[k].merchantId != merchantId
      {
        assert k !in AffiliatesOf(s, merchantId);
      }
      assert aid !in s.affiliates.rows;
      var after := AffiliatesOf(r.store, merchantId);
      assert after == {aid} || after == {};
    }
  }

  /**
   * Asking again, with any other data, returns the affiliate the first call
   * resolved and writes nothing.
   */
  lemma FindOrCreateRepeat(s: Store, data: AffiliateData, data': AffiliateData, merchantId: nat)
    requires FindOrCreateAffiliate(s, data, merchantId).out.Ok?
    ensures var r := FindOrCreateAffiliate(s, data, merchantId);
      FindOrCreateAffiliate(r.store, data', merchantId) == Step(r.store, Ok(r.out.value))
  {
  }

  /**
   * With unique emails, the first guard of register fires exactly when the
   * email belongs to a user who owns a merchant.
   */
  lemma RegisterMerchantGuard(s: Store, email: string)
    requires UniqueEmails(s)
    ensures EmailUserHasMerchant(s, email) <==>
      exists u, m :: u in s.users.rows && s.users.rows[u].email == email && m in s.merchants.rows && s.merchants.rows[m].userId == u
  {
  }

  /**
   * With unique emails, the second guard of register fires exactly when the
   * email belongs to a user who owns an affiliate.
   */
  lemma RegisterAffiliateGuard(s: Store, email: string)
    requires UniqueEmails(s)
    ensures EmailUserHasAffiliate(s, email) <==>
      exists u, a :: u in s.users.rows && s.users.rows[u].email == email && a in s.affiliates.rows && s.affiliates.rows[a].userId == u
  {
  }

  /** Resolution keeps the store well-formed. */
  lemma FindOrCreateKeepsValid(s: Store, data: AffiliateData, merchantId: nat)
    requires Valid(s) && merchantId in s.merchants.rows
    ensures Valid(FindOrCreateAffiliate(s, data, merchantId).store)
  {
    var r := FindOrCreateAffiliate(s, data, merchantId);
    if AffiliateOfMerchant(s, merchantId).None? && r.out.Ok? {
      var aid := r.out.value;
      var uid := r.store.affiliates.rows[aid].userId;
      var s1 := s.(users := r.store.users);
      AddUserKeepsValid(s, s1, uid, User(data.name.GetOr(""), data.email, NoPassword, AffiliateUser));
      AddAffiliateKeepsValid(s1, r.store, aid, Affiliate(uid, merchantId, data.commissionRate, data.discountCode));
    }
  }

  /** Registration keeps the store well-formed. */
  lemma RegisterKeepsValid(s: Store, merchantId: nat, email: string, name: string, commissionRate: real, code: string)
    requires Valid(s) && merchantId in s.merchants.rows
    ensures Valid(Register(s, merchantId, email, name, commissionRate, code).store)
  {
    var r := Register(s, merchantId, email, name, commissionRate, code);
    if r.out.Ok? {
      var aid := r.out.value;
      var a := Affiliate(s.merchants.rows[merchantId].userId, merchantId, commissionRate, code);
      var s1 := s.(affiliates := r.store.affiliates);
      AddAffiliateKeepsValid(s, s1, aid, a);
      if UserByEmail(s, email).None? {
        var uid: nat :| uid !in s.users.rows && r.store.users.rows == s.users.rows[uid := User(name, email, RandomPassword, MerchantUser)];
        AddUserKeepsValid(s1, r.store, uid, User(name, email, RandomPassword, MerchantUser));
      }
    }
  }
}
