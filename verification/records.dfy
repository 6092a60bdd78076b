/**
 * The relational store behind the services: users, merchants, affiliates
 * and orders, each an auto-increment table, with the unique columns the
 * schema enforces and the lookups the services run.
 */
module Records {
  import opened Wrappers
  import opened Tables

  /** `User::TYPE_MERCHANT` and `User::TYPE_AFFILIATE`. */
  datatype UserType = MerchantUser | AffiliateUser

  /** The password column: unset, a random number, or a merchant's API key. */
  datatype Credential = NoPassword | RandomPassword | ApiKey(key: string)

  datatype User = User(name: string, email: string, password: Credential, kind: UserType)

  datatype Merchant = Merchant(userId: nat, domain: string, displayName: string)

  datatype Affiliate = Affiliate(userId: nat, merchantId: nat, commissionRate: real, discountCode: string)

  /** `Order::STATUS_UNPAID` and `Order::STATUS_PAID`. */
  datatype PayoutStatus = Unpaid | Paid

  /** An order row; `createdAt` is the insertion timestamp. */
  datatype Order = Order(
    orderId: string,
    externalOrderId: string,
    merchantId: nat,
    affiliateId: Option<nat>,
    subtotal: real,
    commissionOwed: real,
    discountCode: string,
    payoutStatus: PayoutStatus,
    createdAt: int)

  /** The commission owed on a subtotal at a rate: `subtotal_price * commission_rate`. */
  function Commission(subtotal: real, rate: real): real
  {
    subtotal * rate
  }

  datatype Store = Store(
    users: Table<User>,
    merchants: Table<Merchant>,
    affiliates: Table<Affiliate>,
    orders: Table<Order>)

  /** A column with a unique index. */
  datatype UniqueColumn = UserEmail | MerchantDomain | AffiliateDiscountCode

  /** The exceptions and PHP errors the services can raise. */
  datatype Error =
    | AffiliateCreate(reason: AffiliateRejection)  // AffiliateCreateException
    | Query(column: UniqueColumn)                  // QueryException: unique index violated
    | MerchantAlreadyExists                        // 'Merchant already exists for the user.'
    | RegistrationFailed(cause: UniqueColumn)      // 'User creation failed. Reason: ...'
    | MerchantNotFound                             // TypeError: null returned as Merchant
    | NullMerchant                                 // Error: update() called on null
    | PayoutFailed                                 // RuntimeException rethrown by the payout job

  datatype AffiliateRejection = EmailOwnsMerchant | EmailOwnsAffiliate

  /**
   * The result of running an operation: the store as committed when it
   * returned or raised, and its return value or the error it raised.
   */
  datatype Step<+T> = Step(store: Store, out: Result<T, Error>)

  function EmptyStore(): (s: Store)
    ensures s.users.rows == map[] && s.merchants.rows == map[]
    ensures s.affiliates.rows == map[] && s.orders.rows == map[]
  {
    Store(Empty(), Empty(), Empty(), Empty())
  }

  // ---- lookups: `Model::where(column, value)->first()` ----

  function UserByEmail(s: Store, email: string): (r: Option<nat>)
    ensures r.Some? ==> r.value in s.users.rows && s.users.rows[r.value].email == email
    ensures r.None? <==> forall k :: k in s.users.rows ==> s.users.rows[k].email != email
  {
    First(s.users, (u: User) => u.email == email)
  }

  function MerchantByDomain(s: Store, domain: string): (r: Option<nat>)
    ensures r.Some? ==> r.value in s.merchants.rows && s.merchants.rows[r.value].domain == domain
    ensures r.None? <==> forall k :: k in s.merchants.rows ==> s.merchants.rows[k].domain != domain
  {
    First(s.merchants, (m: Merchant) => m.domain == domain)
  }

  /** `Merchant::where('user_id', ...)->first()`, also `$user->merchant`. */
  function MerchantOfUser(s: Store, userId: nat): (r: Option<nat>)
    ensures r.Some? ==> r.value in s.merchants.rows && s.merchants.rows[r.value].userId == userId
    ensures r.None? <==> forall k :: k in s.merchants.rows ==> s.merchants.rows[k].userId != userId
  {
    First(s.merchants, (m: Merchant) => m.userId == userId)
  }

  function AffiliateOfUser(s: Store, userId: nat): (r: Option<nat>)
    ensures r.Some? ==> r.value in s.affiliates.rows && s.affiliates.rows[r.value].userId == userId
    ensures r.None? <==> forall k :: k in s.affiliates.rows ==> s.affiliates.rows[k].userId != userId
  {
    First(s.affiliates, (a: Affiliate) => a.userId == userId)
  }

  function AffiliateOfMerchant(s: Store, merchantId: nat): (r: Option<nat>)
    ensures r.Some? ==> r.value in s.affiliates.rows && s.affiliates.rows[r.value].merchantId == merchantId
    ensures r.None? <==> forall k :: k in s.affiliates.rows ==> s.affiliates.rows[k].merchantId != merchantId
  {
    First(s.affiliates, (a: Affiliate) => a.merchantId == merchantId)
  }

  function OrderByExternalId(s: Store, externalId: string): (r: Option<nat>)
    ensures r.Some? ==> r.value in s.orders.rows && s.orders.rows[r.value].externalOrderId == externalId
    ensures r.None? <==> forall k :: k in s.orders.rows ==> s.orders.rows[k].externalOrderId != externalId
  {
    First(s.orders, (o: Order) => o.externalOrderId == externalId)
  }

  /** The first user with this email owns a merchant. */
  predicate EmailUserHasMerchant(s: Store, email: string): (r: bool)
    ensures r ==> exists u, m :: u in s.users.rows && s.users.rows[u].email == email
                                && m in s.merchants.rows && s.merchants.rows[m].userId == u
  {
    match UserByEmail(s, email)
    case Some(u) => MerchantOfUser(s, u).Some?
    case None => false
  }

  /** The first user with this email owns an affiliate. */
  predicate EmailUserHasAffiliate(s: Store, email: string): (r: bool)
    ensures r ==> exists u, a :: u in s.users.rows && s.users.rows[u].email == email
                                && a in s.affiliates.rows && s.affiliates.rows[a].userId == u
  {
    match UserByEmail(s, email)
    case Some(u) => AffiliateOfUser(s, u).Some?
    case None => false
  }

  // ---- writes: `Model::create(...)`, `User::firstOrCreate(...)`, `$model->update(...)` ----

  /** `User::create`: refused when the email is taken. */
  function CreateUser(s: Store, u: User): (r: Result<(Store, nat), Error>)
    ensures r.Err? <==> exists k :: k in s.users.rows && s.users.rows[k].email == u.email
    ensures r.Err? ==> r.error == Query(UserEmail)
    ensures r.Ok? ==> var (s', id) := r.value;
      && id !in s.users.rows
      && s' == s.(users := s'.users)
      && s'.users.rows == s.users.rows[id := u]
  {
    if UserByEmail(s, u.email).Some? then Err(Query(UserEmail))
    else var (t, id) := Insert(s.users, u); Ok((s.(users := t), id))
  }

  /**
   * `User::firstOrCreate(['email' => email], attributes)`: the first user
   * with that email, left as it is, or else a new user built from `u`.
   */
  function FirstOrCreateUser(s: Store, u: User): (r: (Store, nat))
    ensures r.0 == s.(users := r.0.users)
    ensures r.1 in r.0.users.rows && r.0.users.rows[r.1].email == u.email
    ensures UserByEmail(s, u.email).Some? ==> r.0 == s && r.1 == UserByEmail(s, u.email).value
    ensures UserByEmail(s, u.email).None? ==> r.1 !in s.users.rows && r.0.users.rows == s.users.rows[r.1 := u]
  {
    match UserByEmail(s, u.email)
    case Some(id) => (s, id)
    case None => var (t, id) := Insert(s.users, u); (s.(users := t), id)
  }

  /** `Merchant::create`: refused when the domain is taken. */
  function CreateMerchant(s: Store, m: Merchant): (r: Result<(Store, nat), Error>)
    ensures r.Err? <==> exists k :: k in s.merchants.rows && s.merchants.rows[k].domain == m.domain
    ensures r.Err? ==> r.error == Query(MerchantDomain)
    ensures r.Ok? ==> var (s', id) := r.value;
      && id !in s.merchants.rows
      && s' == s.(merchants := s'.merchants)
      && s'.merchants.rows == s.merchants.rows[id := m]
  {
    if MerchantByDomain(s, m.domain).Some? then Err(Query(MerchantDomain))
    else var (t, id) := Insert(s.merchants, m); Ok((s.(merchants := t), id))
  }

  /** `Affiliate::create`: refused when the discount code is taken. */
  function CreateAffiliate(s: Store, a: Affiliate): (r: Result<(Store, nat), Error>)
    ensures r.Err? <==> exists k :: k in s.affiliates.rows && s.affiliates.rows[k].discountCode == a.discountCode
    ensures r.Err? ==> r.error == Query(AffiliateDiscountCode)
    ensures r.Ok? ==> var (s', id) := r.value;
      && id !in s.affiliates.rows
      && s' == s.(affiliates := s'.affiliates)
      && s'.affiliates.rows == s.affiliates.rows[id := a]
  {
    if First(s.affiliates, (x: Affiliate) => x.discountCode == a.discountCode).Some? then Err(Query(AffiliateDiscountCode))
    else var (t, id) := Insert(s.affiliates, a); Ok((s.(affiliates := t), id))
  }

  /** `Order::create`; the orders table has no unique column besides its id. */
  function CreateOrder(s: Store, o: Order): (r: (Store, nat))
    ensures r.1 !in s.orders.rows
    ensures r.0 == s.(orders := r.0.orders)
    ensures r.0.orders.rows == s.orders.rows[r.1 := o]
  {
    var (t, id) := Insert(s.orders, o); (s.(orders := t), id)
  }

  /** `$user->update(...)`: refused when another user has the new email. */
  function SaveUser(s: Store, id: nat, u: User): (r: Result<Store, Error>)
    requires id in s.users.rows
    ensures r.Err? <==> exists k :: k in s.users.rows && k != id && s.users.rows[k].email == u.email
    ensures r.Err? ==> r.error == Query(UserEmail)
    ensures r.Ok? ==> r.value == s.(users := r.value.users) && r.value.users.rows == s.users.rows[id := u]
  {
    if exists k :: k in s.users.rows && k != id && s.users.rows[k].email == u.email then Err(Query(UserEmail))
    else Ok(s.(users := Update(s.users, id, u)))
  }

  /** `$merchant->update(...)`: refused when another merchant has the new domain. */
  function SaveMerchant(s: Store, id: nat, m: Merchant): (r: Result<Store, Error>)
    requires id in s.merchants.rows
    ensures r.Err? <==> exists k :: k in s.merchants.rows && k != id && s.merchants.rows[k].domain == m.domain
    ensures r.Err? ==> r.error == Query(MerchantDomain)
    ensures r.Ok? ==> r.value == s.(merchants := r.value.merchants) && r.value.merchants.rows == s.merchants.rows[id := m]
  {
    if exists k :: k in s.merchants.rows && k != id && s.merchants.rows[k].domain == m.domain then Err(Query(MerchantDomain))
    else Ok(s.(merchants := Update(s.merchants, id, m)))
  }

  // ---- integrity: the unique indexes, and distinct external order ids ----

  predicate UniqueEmails(s: Store)
  {
    forall j, k :: j in s.users.rows && k in s.users.rows && s.users.rows[j].email == s.users.rows[k].email ==> j == k
  }

  predicate UniqueDomains(s: Store)
  {
    forall j, k :: j in s.merchants.rows && k in s.merchants.rows && s.merchants.rows[j].domain == s.merchants.rows[k].domain ==> j == k
  }

  predicate UniqueDiscountCodes(s: Store)
  {
    forall j, k ::
      (j in s.affiliates.rows && k in s.affiliates.rows &&
       s.affiliates.rows[j].discountCode == s.affiliates.rows[k].discountCode) ==> j == k
  }

  predicate UniqueExternalIds(s: Store)
  {
    forall j, k ::
      (j in s.orders.rows && k in s.orders.rows &&
       s.orders.rows[j].externalOrderId == s.orders.rows[k].externalOrderId) ==> j == k
  }

  /** Every merchant's user exists. */
  predicate MerchantLinks(s: Store)
  {
    forall k :: k in s.merchants.rows ==> s.merchants.rows[k].userId in s.users.rows
  }

  /** Every affiliate's user and merchant exist. */
  predicate AffiliateLinks(s: Store)
  {
    forall k :: k in s.affiliates.rows ==>
      s.affiliates.rows[k].userId in s.users.rows && s.affiliates.rows[k].merchantId in s.merchants.rows
  }

  /** Every order's merchant exists, and so does its affiliate when it has one. */
  predicate OrderLinks(s: Store)
  {
    forall k :: k in s.orders.rows ==>
      && s.orders.rows[k].merchantId in s.merchants.rows
      && (s.orders.rows[k].affiliateId.Some? ==> s.orders.rows[k].affiliateId.value in s.affiliates.rows)
  }

  /**
   * A well-formed store: the unique columns hold distinct values, external
   * order ids are distinct, and every reference resolves.
   */
  predicate Valid(s: Store)
  {
    && UniqueEmails(s) && UniqueDomains(s) && UniqueDiscountCodes(s) && UniqueExternalIds(s)
    && MerchantLinks(s) && AffiliateLinks(s) && OrderLinks(s)
  }

  /** The ids of the orders with the given external id. */
  function OrdersWithExternalId(s: Store, externalId: string): set<nat>
  {
    set k | k in s.orders.rows && s.orders.rows[k].externalOrderId == externalId
  }

  /** The ids of a merchant's affiliates. */
  function AffiliatesOf(s: Store, merchantId: nat): set<nat>
  {
    set k | k in s.affiliates.rows && s.affiliates.rows[k].merchantId == merchantId
  }

  /** Whether order `id` is recorded as paid. */
  predicate IsPaid(s: Store, id: nat)
  {
    id in s.orders.rows && s.orders.rows[id].payoutStatus == Paid
  }

  // ---- each kind of write keeps the store well-formed ----

  /** Adding a user whose email is not taken keeps the store well-formed. */
  lemma AddUserKeepsValid(s: Store, s': Store, id: nat, u: User)
    requires Valid(s)
    requires id !in s.users.rows
    requires s' == s.(users := s'.users) && s'.users.rows == s.users.rows[id := u]
    requires forall k :: k in s.users.rows ==> s.users.rows[k].email != u.email
    ensures Valid(s')
  {
  }

  /** Adding a merchant with a free domain and an existing user keeps the store well-formed. */
  lemma AddMerchantKeepsValid(s: Store, s': Store, id: nat, m: Merchant)
    requires Valid(s)
    requires id !in s.merchants.rows && m.userId in s.users.rows
    requires s' == s.(merchants := s'.merchants) && s'.merchants.rows == s.merchants.rows[id := m]
    requires forall k :: k in s.merchants.rows ==> s.merchants.rows[k].domain != m.domain
    ensures Valid(s')
  {
  }

  /** Adding an affiliate with a free code, an existing user and an existing merchant keeps the store well-formed. */
  lemma AddAffiliateKeepsValid(s: Store, s': Store, id: nat, a: Affiliate)
    requires Valid(s)
    requires id !in s.affiliates.rows && a.userId in s.users.rows && a.merchantId in s.merchants.rows
    requires s' == s.(affiliates := s'.affiliates) && s'.affiliates.rows == s.affiliates.rows[id := a]
    requires forall k :: k in s.affiliates.rows ==> s.affiliates.rows[k].discountCode != a.discountCode
    ensures Valid(s')
  {
  }

  /** Adding an order with a new external id and existing references keeps the store well-formed. */
  lemma AddOrderKeepsValid(s: Store, s': Store, id: nat, o: Order)
    requires Valid(s)
    requires id !in s.orders.rows && o.merchantId in s.merchants.rows
    requires o.affiliateId.Some? ==> o.affiliateId.value in s.affiliates.rows
    requires s' == s.(orders := s'.orders) && s'.orders.rows == s.orders.rows[id := o]
    requires forall k :: k in s.orders.rows ==> s.orders.rows[k].externalOrderId != o.externalOrderId
    ensures Valid(s')
  {
    assert UniqueExternalIds(s') by {
      forall j, k | j in s'.orders.rows && k in s'.orders.rows &&
                    s'.orders.rows[j].externalOrderId == s'.orders.rows[k].externalOrderId
        ensures j == k
      {
        if j != id && k != id {
          assert s'.orders.rows[j] == s.orders.rows[j] && s'.orders.rows[k] == s.orders.rows[k];
        }
      }
    }
    assert OrderLinks(s') by {
      forall k | k in s'.orders.rows
        ensures s'.orders.rows[k].merchantId in s'.merchants.rows
        ensures s'.orders.rows[k].affiliateId.Some? ==> s'.orders.rows[k].affiliateId.value in s'.affiliates.rows
      {
        if k != id {
          assert s'.orders.rows[k] == s.orders.rows[k];
        }
      }
    }
    assert s'.users == s.users && s'.merchants == s.merchants && s'.affiliates == s.affiliates;
    assert UniqueEmails(s') && UniqueDomains(s') && UniqueDiscountCodes(s');
    assert MerchantLinks(s') && AffiliateLinks(s');
  }

  /** Rewriting a user with an email no other user has keeps the store well-formed. */
  lemma SetUserKeepsValid(s: Store, s': Store, id: nat, u: User)
    requires Valid(s)
    requires id in s.users.rows
    requires s' == s.(users := s'.users) && s'.users.rows == s.users.rows[id := u]
    requires forall k :: k in s.users.rows && k != id ==> s.users.rows[k].email != u.email
    ensures Valid(s')
  {
  }

  /** Rewriting a merchant, same owner, with a domain no other merchant has keeps the store well-formed. */
  lemma SetMerchantKeepsValid(s: Store, s': Store, id: nat, m: Merchant)
    requires Valid(s)
    requires id in s.merchants.rows && m.userId == s.merchants.rows[id].userId
    requires s' == s.(merchants := s'.merchants) && s'.merchants.rows == s.merchants.rows[id := m]
    requires forall k :: k in s.merchants.rows && k != id ==> s.merchants.rows[k].domain != m.domain
    ensures Valid(s')
  {
  }

  /** Changing only an order's payout status keeps the store well-formed. */
  lemma SetPayoutStatusKeepsValid(s: Store, s': Store, id: nat, status: PayoutStatus)
    requires Valid(s)
    requires id in s.orders.rows
    requires s' == s.(orders := s'.orders)
    requires s'.orders.rows == s.orders.rows[id := s.orders.rows[id].(payoutStatus := status)]
    ensures Valid(s')
  {
  }
}
