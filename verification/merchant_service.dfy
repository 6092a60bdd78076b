/**
 * MerchantService: merchant onboarding, profile update, lookup by email,
 * and selection of an affiliate's unpaid orders for payout.
 */
module MerchantService {
  import opened Wrappers
  import opened Tables
  import opened Records

  /** The registration and update array: domain, name, email, api_key. */
  datatype MerchantData = MerchantData(domain: string, name: string, email: string, apiKey: string)

  /** The user register finds or creates for `data`. */
  function OwnerFor(data: MerchantData): User
  {
    User(data.name, data.email, ApiKey(data.apiKey), MerchantUser)
  }

  /**
   * register(data): find or create the MERCHANT user for the email, refuse
   * a user who already owns a merchant, then create the merchant. A
   * duplicate domain surfaces as 'User creation failed'. Nothing runs in a
   * transaction, so a user created here stays when the merchant insert fails.
   */
  function Register(s: Store, data: MerchantData): (r: Step<nat>)
    ensures UserByEmail(r.store, data.email).Some?
    ensures UserByEmail(s, data.email).Some? ==>
      r.store.users == s.users && UserByEmail(r.store, data.email) == UserByEmail(s, data.email)
    ensures UserByEmail(s, data.email).None? ==>
      var uid := UserByEmail(r.store, data.email).value;
      && uid !in s.users.rows
      && r.store.users.rows == s.users.rows[uid := OwnerFor(data)]
    ensures r.out == Err(MerchantAlreadyExists) <==>
      MerchantOfUser(s, UserByEmail(r.store, data.email).value).Some?
    ensures r.out == Err(RegistrationFailed(MerchantDomain)) <==>
      && MerchantOfUser(s, UserByEmail(r.store, data.email).value).None?
      && exists k :: k in s.merchants.rows && s.merchants.rows[k].domain == data.domain
    ensures r.out.Err? ==> r.out.error in {MerchantAlreadyExists, RegistrationFailed(MerchantDomain)}
    ensures r.store.affiliates == s.affiliates && r.store.orders == s.orders
    ensures r.out.Err? ==> r.store.merchants == s.merchants
    ensures r.out.Ok? ==>
      var mid := r.out.value;
      && mid !in s.merchants.rows
      && r.store.merchants.rows ==
         s.merchants.rows[mid := Merchant(UserByEmail(r.store, data.email).value, data.domain, data.name)]
  {
    var (s1, uid) := FirstOrCreateUser(s, OwnerFor(data));
    if MerchantOfUser(s1, uid).Some? then Step(s1, Err(MerchantAlreadyExists))
    else
      match CreateMerchant(s1, Merchant(uid, data.domain, data.name))
      case Err(Query(column)) => Step(s1, Err(RegistrationFailed(column)))
      case Err(e) => Step(s1, Err(e))
      case Ok((s2, mid)) => Step(s2, Ok(mid))
  }

  /**
   * updateMerchant(user, data): save the user's name and email, then the
   * domain and display name of the user's merchant. The two saves are
   * separate: when the second fails, the first stays.
   */
  function UpdateMerchant(s: Store, userId: nat, data: MerchantData): (r: Step<()>)
    requires userId in s.users.rows
    ensures var emailTaken := exists k :: k in s.users.rows && k != userId && s.users.rows[k].email == data.email;
      && (emailTaken <==> r.out == Err(Query(UserEmail)))
      && (emailTaken ==> r.store == s)
      && (!emailTaken ==>
            && r.store.users.rows == s.users.rows[userId := s.users.rows[userId].(name := data.name, email := data.email)]
            && r.store.users.next == s.users.next)
    ensures r.store.affiliates == s.affiliates && r.store.orders == s.orders
    ensures r.out == Err(NullMerchant) <==>
      r.out != Err(Query(UserEmail)) && MerchantOfUser(s, userId).None?
    ensures r.out.Err? ==> r.store.merchants == s.merchants
    ensures r.out.Ok? ==>
      var mid := MerchantOfUser(s, userId).value;
      && MerchantOfUser(s, userId).Some?
      && r.store.merchants.rows == s.merchants.rows[mid := s.merchants.rows[mid].(domain := data.domain, displayName := data.name)]
      && r.store.merchants.next == s.merchants.next
    ensures r.out.Err? ==> r.out.error in {Query(UserEmail), NullMerchant, Query(MerchantDomain)}
    ensures r.out == Err(Query(MerchantDomain)) <==>
      && r.out != Err(Query(UserEmail))
      && MerchantOfUser(s, userId).Some?
      && exists k :: k in s.merchants.rows && k != MerchantOfUser(s, userId).value && s.merchants.rows[k].domain == data.domain
  {
    var user := s.users.rows[userId];
    match SaveUser(s, userId, user.(name := data.name, email := data.email))
    case Err(e) => Step(s, Err(e))
    case Ok(s1) =>
      match MerchantOfUser(s1, userId)
      case None => Step(s1, Err(NullMerchant))
      case Some(mid) =>
        var merchant := s1.merchants.rows[mid];
        match SaveMerchant(s1, mid, merchant.(domain := data.domain, displayName := data.name))
        case Err(e) => Step(s1, Err(e))
        case Ok(s2) => Step(s2, Ok(()))
  }

  /**
   * findMerchantByEmail(email): the merchant of the first user with the
   * email, provided that user is of type MERCHANT; otherwise none.
   */
  function FindMerchantByEmail(s: Store, email: string): (r: Option<nat>)
    ensures r.Some? <==>
      && UserByEmail(s, email).Some?
      && s.users.rows[UserByEmail(s, email).value].kind == MerchantUser
      && MerchantOfUser(s, UserByEmail(s, email).value).Some?
    ensures r.Some? ==>
      && r.value in s.merchants.rows
      && s.merchants.rows[r.value].userId == UserByEmail(s, email).value
  {
    match UserByEmail(s, email)
    case Some(uid) =>
      if s.users.rows[uid].kind == MerchantUser then MerchantOfUser(s, uid) else None
    case None => None
  }

  /** An order the payout of `affiliateId` picks: that affiliate's and still UNPAID. */
  predicate Payable(s: Store, affiliateId: nat, id: nat)
  {
    id in s.orders.rows
    && s.orders.rows[id].affiliateId == Some(affiliateId)
    && s.orders.rows[id].payoutStatus == Unpaid
  }

  /**
   * payout(affiliate): one payout job per unpaid order of the affiliate,
   * dispatched in id order; the result lists the dispatched order ids.
   */
  method Payout(s: Store, affiliateId: nat) returns (dispatched: seq<nat>)
    ensures forall id :: id in dispatched <==> Payable(s, affiliateId, id)
    ensures forall i, j :: 0 <= i < j < |dispatched| ==> dispatched[i] < dispatched[j]
  {
    dispatched := [];
    var id := 0;
    while id < s.orders.next
      invariant id <= s.orders.next
      invariant forall k: nat :: k in dispatched <==> k < id && Payable(s, affiliateId, k)
      invariant forall i, j :: 0 <= i < j < |dispatched| ==> dispatched[i] < dispatched[j]
      invariant forall i :: 0 <= i < |dispatched| ==> dispatched[i] < id
    {
      if Payable(s, affiliateId, id) {
        dispatched := dispatched + [id];
      }
      id := id + 1;
    }
  }

  /** A second registration with the same email fails and writes nothing. */
  lemma RegisterTwiceFails(s: Store, data: MerchantData, again: MerchantData)
    requires Register(s, data).out.Ok?
    requires again.email == data.email
    ensures var s1 := Register(s, data).store;
      Register(s1, again) == Step(s1, Err(MerchantAlreadyExists))
  {
  }

  /**
   * A merchant registered for an email is what findMerchantByEmail then
   * returns, provided the email's user is (or is created as) a MERCHANT.
   */
  lemma RegisterThenFind(s: Store, data: MerchantData)
    requires Register(s, data).out.Ok?
    requires UserByEmail(s, data.email).Some? ==> s.users.rows[UserByEmail(s, data.email).value].kind == MerchantUser
    ensures FindMerchantByEmail(Register(s, data).store, data.email) == Some(Register(s, data).out.value)
  {
    var r := Register(s, data);
    var uid := UserByEmail(r.store, data.email).value;
    assert r.store.users.rows[uid].kind == MerchantUser;
    assert MerchantOfUser(s, uid).None?;
    assert MerchantOfUser(r.store, uid) == Some(r.out.value);
  }

  /**
   * An existing AFFILIATE user can be registered as a merchant, yet
   * findMerchantByEmail does not see that merchant.
   */
  lemma RegisteredAffiliateUserNotFound(s: Store, data: MerchantData)
    requires UserByEmail(s, data.email).Some?
    requires s.users.rows[UserByEmail(s, data.email).value].kind == AffiliateUser
    ensures FindMerchantByEmail(Register(s, data).store, data.email) == None
  {
  }

  /**
   * When every merchant belongs to an existing user, register refuses
   * exactly the emails whose user already owns a merchant.
   */
  lemma RegisterRefusesMerchantOwners(s: Store, data: MerchantData)
    requires forall k :: k in s.merchants.rows ==> s.merchants.rows[k].userId in s.users.rows
    ensures Register(s, data).out == Err(MerchantAlreadyExists) <==> EmailUserHasMerchant(s, data.email)
  {
  }

  /** After a successful update, the new email leads back to the user's merchant. */
  lemma UpdateThenFindByEmail(s: Store, userId: nat, data: MerchantData)
    requires userId in s.users.rows && s.users.rows[userId].kind == MerchantUser
    requires UpdateMerchant(s, userId, data).out.Ok?
    ensures FindMerchantByEmail(UpdateMerchant(s, userId, data).store, data.email) == MerchantOfUser(s, userId)
  {
  }

  /** After a successful update, the new domain resolves to the user's merchant. */
  lemma UpdateThenFindByDomain(s: Store, userId: nat, data: MerchantData)
    requires userId in s.users.rows
    requires UpdateMerchant(s, userId, data).out.Ok?
    ensures MerchantByDomain(UpdateMerchant(s, userId, data).store, data.domain) == MerchantOfUser(s, userId)
  {
  }

  /** Merchant registration keeps the store well-formed, even when it fails after creating the user. */
  lemma RegisterKeepsValid(s: Store, data: MerchantData)
    requires Valid(s)
    ensures Valid(Register(s, data).store)
  {
    var r := Register(s, data);
    var uid := UserByEmail(r.store, data.email).value;
    var s1 := s.(users := r.store.users);
    if UserByEmail(s, data.email).None? {
      AddUserKeepsValid(s, s1, uid, OwnerFor(data));
    }
    if r.out.Ok? {
      AddMerchantKeepsValid(s1, r.store, r.out.value, Merchant(uid, data.domain, data.name));
    }
  }

  /** updateMerchant keeps the store well-formed, including when only its first save lands. */
  lemma UpdateMerchantKeepsValid(s: Store, userId: nat, data: MerchantData)
    requires Valid(s) && userId in s.users.rows
    ensures Valid(UpdateMerchant(s, userId, data).store)
  {
    var r := UpdateMerchant(s, userId, data);
    if r.out != Err(Query(UserEmail)) {
      var s1 := s.(users := r.store.users);
      SetUserKeepsValid(s, s1, userId, s.users.rows[userId].(name := data.name, email := data.email));
      if r.out.Ok? {
        var mid := MerchantOfUser(s, userId).value;
        SetMerchantKeepsValid(s1, r.store, mid, s.merchants.rows[mid].(domain := data.domain, displayName := data.name));
      }
    }
  }
}
