/** The customer directory of the cloud platform: customers, their sign-in identities, consents and loyalty memberships. */
module Customers {
  import opened Prelude
  import opened Text

  datatype CustomerKey = CustomerKey(tenant: string, customer: string)
  datatype IdentityKey = IdentityKey(tenant: string, issuer: string, subject: string)
  datatype ConsentKey = ConsentKey(tenant: string, customer: string, purpose: string)
  datatype MembershipKey = MembershipKey(tenant: string, customer: string, program: string)
  datatype OwnerKey = OwnerKey(tenant: string, program: string, member: string)

  datatype Profile = Profile(email: Option<string>, phone: Option<string>, givenName: Option<string>, familyName: Option<string>,
                             locale: Option<string>)

  const NO_PROFILE: Profile := Profile(None, None, None, None, None)

  /** A deletion is dated once. */
  datatype Customer = Customer(deletedAt: Option<int>, profile: Profile)

  datatype Identity = Identity(customer: string, provider: string, disabledAt: Option<int>)

  datatype ConsentStatus = Granted | Denied | Withdrawn

  datatype Consent = Consent(status: ConsentStatus, policyVersion: string, source: string)

  datatype Store = Store(
    customers: map<CustomerKey, Customer>, identities: map<IdentityKey, Identity>, consents: map<ConsentKey, Consent>,
    memberships: map<MembershipKey, string>, memberOwners: map<OwnerKey, string>)

  datatype Refusal =
    | CustomerMissing | CustomerConflict | IdentityConflict | MemberConflict | AccountDeleted | SessionExpired | ValidationFailed
    | ProviderUnavailable | UnknownProvider | InvalidProviderResponse

  function OwnerOf(s: Store, key: IdentityKey): CustomerKey
    requires key in s.identities
  {
    CustomerKey(key.tenant, s.identities[key].customer)
  }

  function ResolvedOrCreated(s: Store, key: IdentityKey, provider: string, offered: string, profile: Profile)
    : (Store, Result<string, Refusal>)
  {
    if key in s.identities then
      if OwnerOf(s, key) in s.customers then (s, Ok(s.identities[key].customer)) else (s, Err(CustomerMissing))
    else if CustomerKey(key.tenant, offered) in s.customers then (s, Err(CustomerConflict))
    else (s.(customers := s.customers[CustomerKey(key.tenant, offered) := Customer(None, profile)],
             identities := s.identities[key := Identity(offered, provider, None)]), Ok(offered))
  }

  /** The writes of the repository.  They ask whether the customer exists, never whether it was deleted. */
  datatype Write =
    | PutIdentity(customer: string, identity: IdentityKey, provider: string)
    | PutProfile(owner: CustomerKey, profile: Profile)
    | PutConsent(key: ConsentKey, consent: Consent)
    | Bind(membership: MembershipKey, member: string)
    | Erase(erased: CustomerKey, at: int)

  function SubjectOf(write: Write): CustomerKey {
    match write
    case PutIdentity(customer, identity, _) => CustomerKey(identity.tenant, customer)
    case PutProfile(owner, _) => owner
    case PutConsent(key, _) => CustomerKey(key.tenant, key.customer)
    case Bind(membership, _) => CustomerKey(membership.tenant, membership.customer)
    case Erase(erased, _) => erased
  }

  function PutIdentityIn(s: Store, customer: string, key: IdentityKey, provider: string): (Store, Option<Refusal>) {
    if CustomerKey(key.tenant, customer) !in s.customers then (s, Some(CustomerMissing))
    else if key in s.identities then (s, if s.identities[key].customer != customer then Some(IdentityConflict) else None)
    else (s.(identities := s.identities[key := Identity(customer, provider, None)]), None)
  }

  /** An owner that is the empty string counts as no owner. */
  function BindIn(s: Store, key: MembershipKey, member: string): (Store, Option<Refusal>) {
    var ownerKey := OwnerKey(key.tenant, key.program, member);
    if key in s.memberships then (s, None)
    else if ownerKey in s.memberOwners && s.memberOwners[ownerKey] != "" && s.memberOwners[ownerKey] != key.customer
    then (s, Some(MemberConflict))
    else (s.(memberships := s.memberships[key := member], memberOwners := s.memberOwners[ownerKey := key.customer]), None)
  }

  function Disabled(identities: map<IdentityKey, Identity>, owner: CustomerKey, at: int): map<IdentityKey, Identity> {
    map key | key in identities ::
      if CustomerKey(key.tenant, identities[key].customer) == owner then identities[key].(disabledAt := Some(at)) else identities[key]
  }

  function AllWithdrawn(consents: map<ConsentKey, Consent>, owner: CustomerKey): map<ConsentKey, Consent> {
    map key | key in consents ::
      if CustomerKey(key.tenant, key.customer) == owner then consents[key].(status := Withdrawn)
      else consents[key]
  }

  function EraseIn(s: Store, owner: CustomerKey, at: int): (Store, Option<Refusal>) {
    if owner !in s.customers then (s, Some(CustomerMissing))
    else if s.customers[owner].deletedAt.Some? then (s, None)
    else (s.(customers := s.customers[owner := Customer(Some(at), NO_PROFILE)],
             identities := Disabled(s.identities, owner, at),
             consents := AllWithdrawn(s.consents, owner)), None)
  }

  function Written(s: Store, write: Write): (Store, Option<Refusal>) {
    match write
    case PutIdentity(customer, key, provider) => PutIdentityIn(s, customer, key, provider)
    case PutProfile(owner, profile) =>
      if owner !in s.customers then (s, Some(CustomerMissing))
      else (s.(customers := s.customers[owner := s.customers[owner].(profile := profile)]), None)
    case PutConsent(key, consent) =>
      if CustomerKey(key.tenant, key.customer) !in s.customers then (s, Some(CustomerMissing))
      else (s.(consents := s.consents[key := consent]), None)
    case Bind(key, member) => BindIn(s, key, member)
    case Erase(owner, at) => EraseIn(s, owner, at)
  }

  // ---------- what the service does before it writes ----------

  datatype Session = Session(tenant: string, customer: string, expires: int)

  /** In a patch, none leaves a value alone and an inner none removes it. */
  datatype Patch = Patch(givenName: Option<Option<string>>, familyName: Option<Option<string>>, locale: Option<Option<string>>)

  function OptionalValue(value: Option<string>, limit: nat): Result<Option<string>, Refusal> {
    if value.None? then Ok(None)
    else if Trim(value.value) == "" || |Trim(value.value)| > limit then Err(ValidationFailed)
    else Ok(Some(Trim(value.value)))
  }

  function PatchedValue(current: Option<string>, patch: Option<Option<string>>, limit: nat): Result<Option<string>, Refusal> {
    if patch.None? then Ok(current) else OptionalValue(patch.value, limit)
  }

  function Patched(p: Profile, patch: Patch): Result<Profile, Refusal> {
    var given := PatchedValue(p.givenName, patch.givenName, 100);
    var family := PatchedValue(p.familyName, patch.familyName, 100);
    var locale := PatchedValue(p.locale, patch.locale, 35);
    if given.Ok? && family.Ok? && locale.Ok? then Ok(Profile(p.email, p.phone, given.value, family.value, locale.value))
    else Err(ValidationFailed)
  }

  predicate IsIdentifier(s: string) {
    && 1 <= |s| <= 200
    && (forall c :: c in s ==> IsAlphanumeric(c) || c == '.' || c == '_' || c == ':' || c == '-')
    && IsAlphanumeric(s[0])
  }

  predicate IsAlphanumeric(c: char) {
    'A' <= c <= 'Z' || 'a' <= c <= 'z' || '0' <= c <= '9'
  }

  /** Identifiers have one to two hundred characters and no blanks around them. */
  lemma IdentifierBounds(s: string, c: char, n: nat)
    ensures IsIdentifier(s) ==> 1 <= |s| <= 200 && Trim(s) == s
    ensures IsAlphanumeric(c) ==> (IsIdentifier(seq(n, _ => c)) <==> 1 <= n <= 200)
  {
    if IsIdentifier(s) {
      assert s[0] in s && s[|s| - 1] in s;
    }
    assert n > 0 ==> seq(n, _ => c)[0] == c;
  }

  /** What an identity provider says of a token. */
  datatype Verified = Verified(provider: string, kind: string, tenant: string, issuer: string, subject: string,
                               email: Option<string>, phone: Option<string>, expires: int)

  /** What comes of asking a provider by its id: none is configured, it fails, or it answers. */
  datatype Answer = NotConfigured | Unanswered | Answered(provider: string, kind: string, verified: Verified)

  function Asked(providers: map<string, string>, provider: string, verified: Option<Verified>): Answer {
    if provider !in providers then NotConfigured
    else if verified.None? then Unanswered
    else Answered(provider, providers[provider], verified.value)
  }

  /** The identity an answer vouches for: of the provider that was asked, of the tenant it was asked for, and not blank. */
  function Vouched(answer: Answer, tenant: string): Result<IdentityKey, Refusal> {
    match answer
    case NotConfigured => Err(UnknownProvider)
    case Unanswered => Err(ProviderUnavailable)
    case Answered(provider, kind, v) =>
      if v.provider != provider || v.kind != kind || v.tenant != tenant || Trim(v.issuer) == "" || Trim(v.subject) == ""
      then Err(InvalidProviderResponse)
      else Ok(IdentityKey(tenant, v.issuer, v.subject))
  }

  /** No status stands for a word that is none of the three. */
  datatype Call =
    | UpdateProfile(patch: Patch)
    | SetConsent(purpose: string, status: Option<ConsentStatus>, policyVersion: string, source: string)
    | LinkIdentity(answer: Answer)
    | EnrollLoyalty(program: string, enrolled: Option<string>)
    | DeleteAccount

  function CustomerForSession(s: Store, session: Session, now: int): Result<Customer, Refusal> {
    var owner := CustomerKey(session.tenant, session.customer);
    if session.expires <= now then Err(SessionExpired)
    else if owner !in s.customers then Err(CustomerMissing)
    else Ok(s.customers[owner])
  }

  function ActiveCustomer(s: Store, session: Session, now: int): Result<Customer, Refusal> {
    match CustomerForSession(s, session, now)
    case Err(refusal) => Err(refusal)
    case Ok(customer) => if customer.deletedAt.Some? then Err(AccountDeleted) else Ok(customer)
  }

  /** The reads of a call: it is refused, has nothing to write, or knows what to write. */
  function Decide(s: Store, session: Session, call: Call, now: int): Result<Option<Write>, Refusal> {
    var owner := CustomerKey(session.tenant, session.customer);
    match call
    case DeleteAccount =>
      (match CustomerForSession(s, session, now)
       case Err(refusal) => Err(refusal)
       case Ok(customer) => Ok(if customer.deletedAt.Some? then None else Some(Erase(owner, now))))
    case UpdateProfile(patch) =>
      (match ActiveCustomer(s, session, now)
       case Err(refusal) => Err(refusal)
       case Ok(customer) =>
         match Patched(customer.profile, patch)
         case Err(refusal) => Err(refusal)
         case Ok(profile) => Ok(Some(PutProfile(owner, profile))))
    case SetConsent(purpose, status, policyVersion, source) =>
      (match ActiveCustomer(s, session, now)
       case Err(refusal) => Err(refusal)
       case Ok(_) =>
         if status.None? || !IsIdentifier(Trim(purpose)) || !IsIdentifier(Trim(policyVersion)) || !IsIdentifier(Trim(source))
         then Err(ValidationFailed)
         else Ok(Some(PutConsent(ConsentKey(session.tenant, session.customer, Trim(purpose)),
                                 Consent(status.value, Trim(policyVersion), Trim(source))))))
    case LinkIdentity(answer) =>
      (match ActiveCustomer(s, session, now)
       case Err(refusal) => Err(refusal)
       case Ok(_) =>
         match Vouched(answer, session.tenant)
         case Err(refusal) => Err(refusal)
         case Ok(key) => Ok(Some(PutIdentity(session.customer, key, answer.provider))))
    case EnrollLoyalty(program, enrolled) =>
      (match ActiveCustomer(s, session, now)
       case Err(refusal) => Err(refusal)
       case Ok(_) =>
         var key := MembershipKey(session.tenant, session.customer, Trim(program));
         if !IsIdentifier(Trim(program)) then Err(ValidationFailed)
         else if key in s.memberships then Ok(None)
         else if enrolled.None? then Err(ProviderUnavailable)
         else if !IsIdentifier(Trim(enrolled.value)) then Err(ValidationFailed)
         else Ok(Some(Bind(key, Trim(enrolled.value)))))
  }

  /** Whether an identity gets a session, and whose. */
  function SignIn(s: Store, key: IdentityKey, provider: string, offered: string, profile: Profile): (Store, Result<string, Refusal>) {
    match ResolvedOrCreated(s, key, provider, offered, profile)
    case (after, Err(refusal)) => (after, Err(refusal))
    case (after, Ok(customer)) =>
      if CustomerKey(key.tenant, customer) in after.customers && after.customers[CustomerKey(key.tenant, customer)].deletedAt.None?
         && key in after.identities && after.identities[key].disabledAt.None?
      then (after, Ok(customer)) else (after, Err(AccountDeleted))
  }

  function ProfileFrom(v: Verified): Profile {
    Profile(v.email, v.phone, None, None, None)
  }

  /** The whole check of a token: the tenant, the provider, its answer, the account. */
  function Introspected(s: Store, tenant: string, answer: Answer, offered: string): (Store, Result<Session, Refusal>) {
    if !IsIdentifier(Trim(tenant)) then (s, Err(ValidationFailed))
    else match Vouched(answer, Trim(tenant))
         case Err(refusal) => (s, Err(refusal))
         case Ok(key) =>
           match SignIn(s, key, answer.provider, offered, ProfileFrom(answer.verified))
           case (after, Err(refusal)) => (after, Err(refusal))
           case (after, Ok(customer)) => (after, Ok(Session(Trim(tenant), customer, answer.verified.expires)))
  }

  // ---------- what a deletion reports ----------

  datatype Cleanup = CleanedUp | NotSupported | StillPending

  datatype Deletion = Deletion(deletedAt: int, retained: map<MembershipKey, string>, cleanup: map<IdentityKey, Cleanup>)

  function Retained(s: Store, owner: CustomerKey): map<MembershipKey, string> {
    map key | key in s.memberships && CustomerKey(key.tenant, key.customer) == owner :: s.memberships[key]
  }

  /** A provider that is gone or fails leaves the clean-up of its identity pending. */
  function Cleanups(s: Store, owner: CustomerKey, clean: (string, IdentityKey) -> Option<Cleanup>): map<IdentityKey, Cleanup> {
    map key | key in s.identities && OwnerOf(s, key) == owner ::
      match clean(s.identities[key].provider, key) case Some(status) => status case None => StillPending
  }

  // ---------- the repository object ----------

  class MemoryCustomerRepository {
    var customers: map<CustomerKey, Customer>
    var identities: map<IdentityKey, Identity>
    var consents: map<ConsentKey, Consent>
    var memberships: map<MembershipKey, string>
    var memberOwners: map<OwnerKey, string>

    function View(): Store
      reads this
    {
      Store(customers, identities, consents, memberships, memberOwners)
    }

    constructor ()
      ensures View() == Store(map[], map[], map[], map[], map[])
    {
      customers, identities, consents, memberships, memberOwners := map[], map[], map[], map[], map[];
    }

    method ResolveOrCreate(key: IdentityKey, provider: string, offered: string, profile: Profile) returns (r: Result<string, Refusal>)
      modifies this
      ensures (View(), r) == ResolvedOrCreated(old(View()), key, provider, offered, profile)
    {
      if key in identities {
        if CustomerKey(key.tenant, identities[key].customer) !in customers {
          return Err(CustomerMissing);
        }
        return Ok(identities[key].customer);
      }
      var record := CustomerKey(key.tenant, offered);
      if record in customers {
        return Err(CustomerConflict);
      }
      customers := customers[record := Customer(None, profile)];
      identities := identities[key := Identity(offered, provider, None)];
      return Ok(offered);
    }

    method LinkIdentity(customer: string, key: IdentityKey, provider: string) returns (e: Option<Refusal>)
      modifies this
      ensures (View(), e) == Written(old(View()), PutIdentity(customer, key, provider))
    {
      if CustomerKey(key.tenant, customer) !in customers {
        return Some(CustomerMissing);
      }
      if key in identities {
        return if identities[key].customer != customer then Some(IdentityConflict) else None;
      }
      identities := identities[key := Identity(customer, provider, None)];
      return None;
    }

    method BindLoyaltyMembership(key: MembershipKey, member: string) returns (e: Option<Refusal>)
      modifies this
      ensures (View(), e) == Written(old(View()), Bind(key, member))
    {
      if key in memberships {
        return None;
      }
      var ownerKey := OwnerKey(key.tenant, key.program, member);
      if ownerKey in memberOwners && memberOwners[ownerKey] != "" && memberOwners[ownerKey] != key.customer {
        return Some(MemberConflict);
      }
      memberships := memberships[key := member];
      memberOwners := memberOwners[ownerKey := key.customer];
      return None;
    }

    method DeleteCustomer(owner: CustomerKey, at: int) returns (e: Option<Refusal>)
      modifies this
      ensures (View(), e) == Written(old(View()), Erase(owner, at))
    {
      if owner !in customers {
        return Some(CustomerMissing);
      }
      if customers[owner].deletedAt.Some? {
        return None;
      }
      customers := customers[owner := Customer(Some(at), NO_PROFILE)];
      var rest := identities.Keys;
      while rest != {}
        invariant rest <= old(identities).Keys == identities.Keys
        invariant customers == old(customers)[owner := Customer(Some(at), NO_PROFILE)]
        invariant consents == old(consents) && memberships == old(memberships) && memberOwners == old(memberOwners)
        invariant forall key :: key in identities ==>
                    identities[key] == if key in rest then old(identities)[key] else Disabled(old(identities), owner, at)[key]
        decreases rest
      {
        var key :| key in rest;
        if key.tenant == owner.tenant && identities[key].customer == owner.customer {
          identities := identities[key := identities[key].(disabledAt := Some(at))];
        }
        rest := rest - {key};
      }
      assert identities == Disabled(old(identities), owner, at);
      var waiting := consents.Keys;
      while waiting != {}
        invariant waiting <= old(consents).Keys == consents.Keys
        invariant customers == old(customers)[owner := Customer(Some(at), NO_PROFILE)]
        invariant identities == Disabled(old(identities), owner, at)
        invariant memberships == old(memberships) && memberOwners == old(memberOwners)
        invariant forall key :: key in consents ==>
                    consents[key] == if key in waiting then old(consents)[key] else AllWithdrawn(old(consents), owner)[key]
        decreases waiting
      {
        var key :| key in waiting;
        if key.tenant == owner.tenant && key.customer == owner.customer {
          consents := consents[key := consents[key].(status := Withdrawn)];
        }
        waiting := waiting - {key};
      }
      assert consents == AllWithdrawn(old(consents), owner);
      return None;
    }

    method ReplaceProfile(owner: CustomerKey, profile: Profile) returns (e: Option<Refusal>)
      modifies this
      ensures (View(), e) == Written(old(View()), PutProfile(owner, profile))
    {
      if owner !in customers {
        return Some(CustomerMissing);
      }
      customers := customers[owner := customers[owner].(profile := profile)];
      return None;
    }

    method SetConsent(key: ConsentKey, consent: Consent) returns (e: Option<Refusal>)
      modifies this
      ensures (View(), e) == Written(old(View()), PutConsent(key, consent))
    {
      if CustomerKey(key.tenant, key.customer) !in customers {
        return Some(CustomerMissing);
      }
      consents := consents[key := consent];
      return None;
    }
  }

  // ---------- the service object, one call at a time ----------

  /** A call that nothing interrupts: it reads, decides and writes. */
  function Served(s: Store, session: Session, call: Call, now: int): (Store, Option<Refusal>) {
    match Decide(s, session, call, now)
    case Err(refusal) => (s, Some(refusal))
    case Ok(None) => (s, None)
    case Ok(Some(write)) => Written(s, write)
  }

  /** A deletion reports every membership the customer retains and what became of the clean-up of each of its identities. */
  lemma ReportedExactly(s: Store, owner: CustomerKey, clean: (string, IdentityKey) -> Option<Cleanup>)
    ensures forall key :: key in Retained(s, owner)
              <==> key in s.memberships && key.tenant == owner.tenant && key.customer == owner.customer
    ensures forall key :: key in Retained(s, owner) ==> Retained(s, owner)[key] == s.memberships[key]
    ensures forall key :: key in Cleanups(s, owner, clean)
              <==> key in s.identities && key.tenant == owner.tenant && s.identities[key].customer == owner.customer
    ensures forall key :: key in Cleanups(s, owner, clean) ==>
              var status := clean(s.identities[key].provider, key);
              Cleanups(s, owner, clean)[key] == if status.Some? then status.value else StillPending
  {
  }

  // ---------- what each call does, told of its own fields ----------

  /** A credential is vouched for exactly when the provider that was asked answers, for itself, its kind and the tenant, with a subject. */
  lemma VouchedExactly(answer: Answer, tenant: string)
    ensures match answer
            case NotConfigured => Vouched(answer, tenant) == Err(UnknownProvider)
            case Unanswered => Vouched(answer, tenant) == Err(ProviderUnavailable)
            case Answered(provider, kind, v) =>
              Vouched(answer, tenant)
              == if v.provider == provider && v.kind == kind && v.tenant == tenant && Trim(v.issuer) != "" && Trim(v.subject) != ""
                 then Ok(IdentityKey(tenant, v.issuer, v.subject)) else Err(InvalidProviderResponse)
  {
  }

  /**
   A credential that is vouched for gives a session until it expires: of the customer its identity is
   linked to, unless that account was deleted or the identity switched off, or of a new customer.
   */
  lemma IntrospectedExactly(s: Store, tenant: string, answer: Answer, offered: string)
    ensures var ((after, r), t) := (Introspected(s, tenant, answer, offered), Trim(tenant));
            if !IsIdentifier(t) then r == Err(ValidationFailed) && after == s
            else if Vouched(answer, t).Err? then r == Err(Vouched(answer, t).error) && after == s
            else
              var (v, key) := (answer.verified, IdentityKey(t, answer.verified.issuer, answer.verified.subject));
              if key in s.identities then
                var (identity, owner) := (s.identities[key], CustomerKey(t, s.identities[key].customer));
                && after == s
                && r == (if owner !in s.customers then Err(CustomerMissing)
                         else if s.customers[owner].deletedAt.Some? || identity.disabledAt.Some? then Err(AccountDeleted)
                         else Ok(Session(t, identity.customer, v.expires)))
              else if CustomerKey(t, offered) in s.customers then r == Err(CustomerConflict) && after == s
              else
                && r == Ok(Session(t, offered, v.expires))
                && after.customers == s.customers[CustomerKey(t, offered) := Customer(None, Profile(v.email, v.phone, None, None, None))]
                && after.identities == s.identities[key := Identity(offered, answer.provider, None)]
                && after.consents == s.consents && after.memberships == s.memberships && after.memberOwners == s.memberOwners
  {
  }

  /** Why the account of a session cannot be used, if it cannot. */
  function Barred(s: Store, session: Session, now: int): Option<Refusal> {
    var owner := CustomerKey(session.tenant, session.customer);
    if session.expires <= now then Some(SessionExpired)
    else if owner !in s.customers then Some(CustomerMissing)
    else if s.customers[owner].deletedAt.Some? then Some(AccountDeleted)
    else None
  }

  predicate ProperValue(patch: Option<Option<string>>, limit: nat) {
    patch.Some? && patch.value.Some? ==> 1 <= |Trim(patch.value.value)| <= limit
  }

  function NewValue(current: Option<string>, patch: Option<Option<string>>): Option<string> {
    if patch.None? then current else if patch.value.None? then None else Some(Trim(patch.value.value))
  }

  /** Of the profile, exactly the names and the locale that are in a proper patch change. */
  lemma ProfileUpdatedExactly(s: Store, session: Session, patch: Patch, now: int)
    ensures var (after, refusal) := Served(s, session, UpdateProfile(patch), now);
            var owner := CustomerKey(session.tenant, session.customer);
            if Barred(s, session, now).Some? then refusal == Barred(s, session, now) && after == s
            else if !ProperValue(patch.givenName, 100) || !ProperValue(patch.familyName, 100) || !ProperValue(patch.locale, 35)
            then refusal == Some(ValidationFailed) && after == s
            else
              var was := s.customers[owner].profile;
              && refusal.None?
              && after == s.(customers := s.customers[owner := Customer(None, was.(
                               givenName := NewValue(was.givenName, patch.givenName),
                               familyName := NewValue(was.familyName, patch.familyName),
                               locale := NewValue(was.locale, patch.locale)))])
  {
  }

  lemma ConsentSetExactly(s: Store, session: Session, purpose: string, status: Option<ConsentStatus>, policyVersion: string,
                          source: string, now: int)
    ensures var (after, refusal) := Served(s, session, SetConsent(purpose, status, policyVersion, source), now);
            if Barred(s, session, now).Some? then refusal == Barred(s, session, now) && after == s
            else if status.None? || !IsIdentifier(Trim(purpose)) || !IsIdentifier(Trim(policyVersion)) || !IsIdentifier(Trim(source))
            then refusal == Some(ValidationFailed) && after == s
            else
              && refusal.None?
              && after == s.(consents := s.consents[ConsentKey(session.tenant, session.customer, Trim(purpose)) :=
                                                    Consent(status.value, Trim(policyVersion), Trim(source))])
  {
  }

  /** A vouched identity of the session's tenant is linked to the account, unless it is somebody else's. */
  lemma IdentityLinkedExactly(s: Store, session: Session, answer: Answer, now: int)
    ensures var (after, refusal) := Served(s, session, LinkIdentity(answer), now);
            if Barred(s, session, now).Some? then refusal == Barred(s, session, now) && after == s
            else if Vouched(answer, session.tenant).Err? then refusal == Some(Vouched(answer, session.tenant).error) && after == s
            else
              var key := IdentityKey(session.tenant, answer.verified.issuer, answer.verified.subject);
              if key in s.identities then
                && refusal == (if s.identities[key].customer == session.customer then None else Some(IdentityConflict))
                && after == s
              else
                && refusal.None?
                && after == s.(identities := s.identities[key := Identity(session.customer, answer.provider, None)])
  {
    VouchedExactly(answer, session.tenant);
  }

  /** An account that has a membership keeps it; otherwise the member that enrollment gave is bound, unless another customer has it. */
  lemma EnrolledExactly(s: Store, session: Session, program: string, enrolled: Option<string>, now: int)
    ensures var (after, refusal) := Served(s, session, EnrollLoyalty(program, enrolled), now);
            var key := MembershipKey(session.tenant, session.customer, Trim(program));
            if Barred(s, session, now).Some? then refusal == Barred(s, session, now) && after == s
            else if !IsIdentifier(Trim(program)) then refusal == Some(ValidationFailed) && after == s
            else if key in s.memberships then refusal.None? && after == s
            else if enrolled.None? then refusal == Some(ProviderUnavailable) && after == s
            else if !IsIdentifier(Trim(enrolled.value)) then refusal == Some(ValidationFailed) && after == s
            else
              var owner := OwnerKey(session.tenant, Trim(program), Trim(enrolled.value));
              if owner in s.memberOwners && s.memberOwners[owner] != "" && s.memberOwners[owner] != session.customer
              then refusal == Some(MemberConflict) && after == s
              else
                && refusal.None?
                && after == s.(memberships := s.memberships[key := Trim(enrolled.value)],
                               memberOwners := s.memberOwners[owner := session.customer])
  {
  }

  /** A deletion empties the customer's profile, switches its identities off and withdraws its consents, all at once and once only. */
  lemma DeletedExactly(s: Store, session: Session, now: int)
    ensures var ((after, refusal), owner) := (Served(s, session, DeleteAccount, now), CustomerKey(session.tenant, session.customer));
            if session.expires <= now then refusal == Some(SessionExpired) && after == s
            else if owner !in s.customers then refusal == Some(CustomerMissing) && after == s
            else if s.customers[owner].deletedAt.Some? then refusal.None? && after == s
            else
              && refusal.None? && after.customers == s.customers[owner := Customer(Some(now), NO_PROFILE)]
              && after.memberships == s.memberships && after.memberOwners == s.memberOwners
              && after.identities.Keys == s.identities.Keys && after.consents.Keys == s.consents.Keys
              && (forall key :: key in s.identities ==>
                    after.identities[key] == if key.tenant == session.tenant && s.identities[key].customer == session.customer
                                             then s.identities[key].(disabledAt := Some(now)) else s.identities[key])
              && (forall key :: key in s.consents ==>
                    after.consents[key] == if key.tenant == session.tenant && key.customer == session.customer
                                           then s.consents[key].(status := Withdrawn) else s.consents[key])
  {
  }

  class CustomerPlatform {
    const repository: MemoryCustomerRepository
    // The configured providers, with their kinds.
    const providers: map<string, string>

    constructor (repository: MemoryCustomerRepository, providers: map<string, string>)
      ensures this.repository == repository && this.providers == providers
    {
      this.repository, this.providers := repository, providers;
    }

    method IntrospectSession(tenant: string, provider: string, verified: Option<Verified>, offered: string)
      returns (r: Result<Session, Refusal>)
      modifies repository
      ensures (repository.View(), r)
              == Introspected(old(repository.View()), tenant, Asked(providers, provider, verified), offered)
    {
      if !IsIdentifier(Trim(tenant)) {
        return Err(ValidationFailed);
      }
      var key := Vouched(Asked(providers, provider, verified), Trim(tenant));
      if key.Err? {
        return Err(key.error);
      }
      var customer := repository.ResolveOrCreate(key.value, provider, offered, ProfileFrom(verified.value));
      if customer.Err? {
        return Err(customer.error);
      }
      var owner := CustomerKey(Trim(tenant), customer.value);
      if owner !in repository.customers || repository.customers[owner].deletedAt.Some?
         || key.value !in repository.identities || repository.identities[key.value].disabledAt.Some? {
        return Err(AccountDeleted);
      }
      return Ok(Session(Trim(tenant), customer.value, verified.value.expires));
    }

    method UpdateProfile(session: Session, patch: Patch, now: int) returns (e: Option<Refusal>)
      modifies repository
      ensures (repository.View(), e) == Served(old(repository.View()), session, Call.UpdateProfile(patch), now)
    {
      var customer := ActiveCustomer(repository.View(), session, now);
      if customer.Err? {
        return Some(customer.error);
      }
      var profile := Patched(customer.value.profile, patch);
      if profile.Err? {
        return Some(profile.error);
      }
      e := repository.ReplaceProfile(CustomerKey(session.tenant, session.customer), profile.value);
    }

    method SetConsent(session: Session, purpose: string, status: Option<ConsentStatus>, policyVersion: string, source: string, now: int)
      returns (e: Option<Refusal>)
      modifies repository
      ensures (repository.View(), e)
              == Served(old(repository.View()), session, Call.SetConsent(purpose, status, policyVersion, source), now)
    {
      var customer := ActiveCustomer(repository.View(), session, now);
      if customer.Err? {
        return Some(customer.error);
      }
      if status.None? {
        return Some(ValidationFailed);
      }
      if !IsIdentifier(Trim(purpose)) || !IsIdentifier(Trim(policyVersion)) || !IsIdentifier(Trim(source)) {
        return Some(ValidationFailed);
      }
      e := repository.SetConsent(ConsentKey(session.tenant, session.customer, Trim(purpose)),
                                 Consent(status.value, Trim(policyVersion), Trim(source)));
    }

    method LinkIdentity(session: Session, provider: string, verified: Option<Verified>, now: int) returns (e: Option<Refusal>)
      modifies repository
      ensures (repository.View(), e)
              == Served(old(repository.View()), session, Call.LinkIdentity(Asked(providers, provider, verified)), now)
    {
      var customer := ActiveCustomer(repository.View(), session, now);
      if customer.Err? {
        return Some(customer.error);
      }
      var key := Vouched(Asked(providers, provider, verified), session.tenant);
      if key.Err? {
        return Some(key.error);
      }
      e := repository.LinkIdentity(session.customer, key.value, provider);
    }

    method EnrollLoyalty(session: Session, program: string, enrolled: Option<string>, now: int) returns (e: Option<Refusal>)
      modifies repository
      ensures (repository.View(), e) == Served(old(repository.View()), session, Call.EnrollLoyalty(program, enrolled), now)
    {
      var customer := ActiveCustomer(repository.View(), session, now);
      if customer.Err? {
        return Some(customer.error);
      }
      if !IsIdentifier(Trim(program)) {
        return Some(ValidationFailed);
      }
      var key := MembershipKey(session.tenant, session.customer, Trim(program));
      if key in repository.memberships {
        return None;
      }
      if enrolled.None? {
        return Some(ProviderUnavailable);
      }
      if !IsIdentifier(Trim(enrolled.value)) {
        return Some(ValidationFailed);
      }
      e := repository.BindLoyaltyMembership(key, Trim(enrolled.value));
    }

    /** The identities to clean up are read before the deletion, the memberships it retains after. */
    method DeleteAccount(session: Session, now: int, clean: (string, IdentityKey) -> Option<Cleanup>) returns (r: Result<Deletion, Refusal>)
      modifies repository
      ensures repository.View() == Served(old(repository.View()), session, Call.DeleteAccount, now).0
      ensures var (before, owner) := (old(repository.View()), CustomerKey(session.tenant, session.customer));
              var customer := CustomerForSession(before, session, now);
              r == if customer.Err? then Err(customer.error)
                   else Ok(Deletion(if customer.value.deletedAt.Some? then customer.value.deletedAt.value else now,
                                    Retained(before, owner), Cleanups(before, owner, clean)))
    {
      var owner := CustomerKey(session.tenant, session.customer);
      var customer := CustomerForSession(repository.View(), session, now);
      if customer.Err? {
        return Err(customer.error);
      }
      var cleanup := Cleanups(repository.View(), owner, clean);
      var deletedAt := if customer.value.deletedAt.Some? then customer.value.deletedAt.value else now;
      if customer.value.deletedAt.None? {
        var _ := repository.DeleteCustomer(owner, deletedAt);
      }
      return Ok(Deletion(deletedAt, Retained(repository.View(), owner), cleanup));
    }
  }
}
