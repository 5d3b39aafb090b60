/** Calls on customer accounts in flight at once: each reads the account, and the repository writes later. */
module CustomerRuns {
  import opened Prelude
  import opened Text
  import opened Customers

  datatype State = State(store: Store, pending: map<nat, Write>)

  /** `Enter` is a sign-in whose identity was vouched for; one that was not takes no step. */
  datatype Step =
    | Enter(identity: IdentityKey, provider: string, offered: string, profile: Profile)
    | Begin(caller: nat, session: Session, call: Call, now: int)
    | Settle(caller: nat)

  predicate Enabled(s: State, step: Step) {
    match step
    case Enter(_, _, _, _) => true
    case Begin(c, _, _, _) => c !in s.pending
    case Settle(c) => c in s.pending
  }

  function Apply(s: State, step: Step): State
    requires Enabled(s, step)
  {
    match step
    case Enter(identity, provider, offered, profile) =>
      s.(store := SignIn(s.store, identity, provider, offered, profile).0)
    case Begin(c, session, call, now) =>
      var decided := Decide(s.store, session, call, now);
      if decided.Ok? && decided.value.Some? then s.(pending := s.pending[c := decided.value.value]) else s
    case Settle(c) => State(Written(s.store, s.pending[c]).0, s.pending - {c})
  }

  const EMPTY: Store := Store(map[], map[], map[], map[], map[])

  ghost predicate IsRun(states: seq<State>, steps: seq<Step>) {
    && |states| == |steps| + 1 && states[0] == State(EMPTY, map[])
    && forall n :: 0 <= n < |steps| ==> Enabled(states[n], steps[n]) && states[n + 1] == Apply(states[n], steps[n])
  }

  /** What the service object does with a call is its two steps with nothing between, and a sign-in is one. */
  lemma ServedInSteps(s: State, c: nat, session: Session, call: Call, now: int)
    requires c !in s.pending
    ensures var begun := Apply(s, Begin(c, session, call, now));
            if c in begun.pending then Apply(begun, Settle(c)) == State(Served(s.store, session, call, now).0, s.pending)
            else begun == s && Served(s.store, session, call, now).0 == s.store
  {
    var begun := Apply(s, Begin(c, session, call, now));
    assert c in begun.pending ==> begun.pending - {c} == s.pending;
  }

  lemma EnteredInOneStep(s: State, tenant: string, answer: Answer, offered: string)
    ensures var (after, r) := Introspected(s.store, tenant, answer, offered);
            if answer.Answered? && IsIdentifier(Trim(tenant)) && Vouched(answer, Trim(tenant)).Ok? then
              Apply(s, Enter(Vouched(answer, Trim(tenant)).value, answer.provider, offered, ProfileFrom(answer.verified)))
              == State(after, s.pending)
            else after == s.store && r.Err?
  {
  }

  // ---------- bindings ----------

  /** No binding changes: identities keep their customer, members theirs, and deleted customers stay deleted since the same instant. */
  ghost predicate Extends(before: Store, after: Store) {
    && CustomersExtend(before.customers, after.customers) && IdentitiesExtend(before.identities, after.identities)
    && (forall key :: key in before.memberships ==> key in after.memberships && after.memberships[key] == before.memberships[key])
  }

  ghost predicate CustomersExtend(before: map<CustomerKey, Customer>, after: map<CustomerKey, Customer>) {
    forall key :: key in before ==>
      key in after && (before[key].deletedAt.Some? ==> after[key].deletedAt == before[key].deletedAt)
  }

  ghost predicate IdentitiesExtend(before: map<IdentityKey, Identity>, after: map<IdentityKey, Identity>) {
    forall key :: key in before ==>
      && key in after && after[key].customer == before[key].customer
      && (before[key].disabledAt.Some? ==> after[key].disabledAt.Some?)
  }

  ghost predicate IdentitiesHaveCustomers(s: Store) {
    forall key :: key in s.identities ==> OwnerOf(s, key) in s.customers
  }

  lemma WriteExtends(s: Store, write: Write)
    requires IdentitiesHaveCustomers(s)
    ensures Extends(s, Written(s, write).0) && IdentitiesHaveCustomers(Written(s, write).0)
  {
    match write
    case PutIdentity(customer, key, provider) => PutIdentityExtends(s, customer, key, provider);
    case PutProfile(owner, profile) =>
      assert CustomersExtend(s.customers, Written(s, write).0.customers);
    case PutConsent(_, _) =>
    case Bind(_, _) =>
    case Erase(owner, at) => EraseExtends(s, owner, at);
  }

  lemma PutIdentityExtends(s: Store, customer: string, key: IdentityKey, provider: string)
    requires IdentitiesHaveCustomers(s)
    ensures Extends(s, PutIdentityIn(s, customer, key, provider).0)
    ensures IdentitiesHaveCustomers(PutIdentityIn(s, customer, key, provider).0)
  {
  }

  lemma EraseExtends(s: Store, owner: CustomerKey, at: int)
    requires IdentitiesHaveCustomers(s)
    ensures Extends(s, EraseIn(s, owner, at).0) && IdentitiesHaveCustomers(EraseIn(s, owner, at).0)
  {
    var after := EraseIn(s, owner, at).0;
    assert CustomersExtend(s.customers, after.customers);
    assert IdentitiesExtend(s.identities, after.identities);
    forall key | key in after.identities ensures OwnerOf(after, key) in after.customers {
      assert OwnerOf(after, key) == OwnerOf(s, key);
    }
  }

  /** A sign-in adds a new customer with the new identity, or changes nothing. */
  lemma SignInAdds(s: Store, identity: IdentityKey, provider: string, offered: string, profile: Profile)
    ensures var (after, owner) := (SignIn(s, identity, provider, offered, profile).0, CustomerKey(identity.tenant, offered));
            if after == s then true
            else && identity !in s.identities && owner !in s.customers
                 && after == s.(customers := s.customers[owner := Customer(None, profile)],
                                identities := s.identities[identity := Identity(offered, provider, None)])
  {
  }

  lemma SignInExtends(s: Store, identity: IdentityKey, provider: string, offered: string, profile: Profile)
    requires IdentitiesHaveCustomers(s)
    ensures Extends(s, SignIn(s, identity, provider, offered, profile).0)
    ensures IdentitiesHaveCustomers(SignIn(s, identity, provider, offered, profile).0)
  {
    SignInAdds(s, identity, provider, offered, profile);
  }

  lemma StepExtends(s: State, step: Step)
    requires IdentitiesHaveCustomers(s.store) && Enabled(s, step)
    ensures Extends(s.store, Apply(s, step).store) && IdentitiesHaveCustomers(Apply(s, step).store)
  {
    match step
    case Enter(identity, provider, offered, profile) => SignInExtends(s.store, identity, provider, offered, profile);
    case Begin(_, _, _, _) =>
    case Settle(c) => WriteExtends(s.store, s.pending[c]);
  }

  lemma ExtendsFurther(a: Store, b: Store, c: Store)
    requires Extends(a, b) && Extends(b, c)
    ensures Extends(a, c)
  {
  }

  /** Every identity points to a customer that exists. */
  lemma {:induction false} IdentitiesAlwaysHaveCustomers(states: seq<State>, steps: seq<Step>, n: nat)
    requires IsRun(states, steps) && n < |states|
    ensures IdentitiesHaveCustomers(states[n].store)
  {
    if n > 0 {
      IdentitiesAlwaysHaveCustomers(states, steps, n - 1);
      StepExtends(states[n - 1], steps[n - 1]);
    }
  }

  lemma {:induction false} ExtendsThroughout(states: seq<State>, m: nat, n: nat)
    requires m <= n < |states| && forall k :: m <= k < n ==> Extends(states[k].store, states[k + 1].store)
    ensures Extends(states[m].store, states[n].store)
  {
    if m < n {
      ExtendsThroughout(states, m, n - 1);
      ExtendsFurther(states[m].store, states[n - 1].store, states[n].store);
    }
  }

  /** And it points to the same one for ever, as every membership does to its member. */
  lemma BindingsAreForEver(states: seq<State>, steps: seq<Step>, m: nat, n: nat)
    requires IsRun(states, steps) && m <= n < |states|
    ensures Extends(states[m].store, states[n].store)
  {
    forall k | m <= k < n ensures Extends(states[k].store, states[k + 1].store) {
      IdentitiesAlwaysHaveCustomers(states, steps, k);
      StepExtends(states[k], steps[k]);
    }
    ExtendsThroughout(states, m, n);
  }

  /** Once an account is deleted, no identity that was linked to it is given a session again, whatever is still in flight. */
  lemma NoSessionAgain(states: seq<State>, steps: seq<Step>, m: nat, n: nat, tenant: string, answer: Answer, offered: string)
    requires IsRun(states, steps) && m <= n < |states|
    requires Vouched(answer, Trim(tenant)).Ok? && Vouched(answer, Trim(tenant)).value in states[m].store.identities
    requires var owner := OwnerOf(states[m].store, Vouched(answer, Trim(tenant)).value);
             owner in states[m].store.customers && states[m].store.customers[owner].deletedAt.Some?
    ensures var r := Introspected(states[n].store, tenant, answer, offered);
            r.0 == states[n].store && r.1 == Err(if IsIdentifier(Trim(tenant)) then AccountDeleted else ValidationFailed)
  {
    BindingsAreForEver(states, steps, m, n);
  }

  // ---------- the membership index ----------

  /** Memberships and owners are inverse to each other, for each tenant and program. */
  ghost predicate Mutual(s: Store) {
    && (forall key :: key in s.memberships ==>
          var ownerKey := OwnerKey(key.tenant, key.program, s.memberships[key]);
          ownerKey in s.memberOwners && s.memberOwners[ownerKey] == key.customer)
    && (forall ownerKey :: ownerKey in s.memberOwners ==>
          var key := MembershipKey(ownerKey.tenant, s.memberOwners[ownerKey], ownerKey.program);
          key in s.memberships && s.memberships[key] == ownerKey.member)
  }

  /** The conflict check takes an owner with an empty id for no owner. */
  predicate TakesOver(s: Store, key: MembershipKey, member: string) {
    var ownerKey := OwnerKey(key.tenant, key.program, member);
    key !in s.memberships && ownerKey in s.memberOwners && s.memberOwners[ownerKey] == "" && key.customer != ""
  }

  /** A binding keeps the index exactly unless it takes over the member of a customer whose id is empty. */
  lemma BindingKeepsTheIndexExactly(s: Store, key: MembershipKey, member: string)
    requires Mutual(s)
    ensures Mutual(BindIn(s, key, member).0) <==> !TakesOver(s, key, member)
  {
    var (after, ownerKey) := (BindIn(s, key, member).0, OwnerKey(key.tenant, key.program, member));
    if TakesOver(s, key, member) {
      var emptied := MembershipKey(key.tenant, "", key.program);
      assert emptied in s.memberships && s.memberships[emptied] == member;
      assert emptied in after.memberships && after.memberships[emptied] == member && after.memberOwners[ownerKey] == key.customer;
    }
  }

  /** Customer ids are drawn with a prefix, so none is empty. */
  predicate Named(step: Step) {
    && (step.Enter? ==> step.offered != "")
    && (step.Begin? ==> step.session.customer != "")
  }

  ghost predicate IndexInv(s: State) {
    && Mutual(s.store)
    && (forall ownerKey :: ownerKey in s.store.memberOwners ==> s.store.memberOwners[ownerKey] != "")
    && (forall c :: c in s.pending ==> SubjectOf(s.pending[c]).customer != "")
  }

  /** In every reachable state memberships and owners are inverse to each other, and so no member has two customers. */
  lemma {:induction false} IndexIsMutual(states: seq<State>, steps: seq<Step>, n: nat)
    requires IsRun(states, steps) && n < |states| && forall k :: 0 <= k < |steps| ==> Named(steps[k])
    ensures IndexInv(states[n])
  {
    if n > 0 {
      IndexIsMutual(states, steps, n - 1);
      assert Named(steps[n - 1]);
      IndexStep(states[n - 1], steps[n - 1]);
    }
  }

  lemma IndexStep(s: State, step: Step)
    requires IndexInv(s) && Enabled(s, step) && Named(step)
    ensures IndexInv(Apply(s, step))
  {
    match step
    case Enter(identity, provider, offered, profile) => SignInAdds(s.store, identity, provider, offered, profile);
    case Begin(_, session, call, now) =>
      var decided := Decide(s.store, session, call, now);
      if decided.Ok? && decided.value.Some? {
        DecidedForTheSession(s.store, session, call, now);
      }
    case Settle(c) =>
      SettlingKeepsTheIndex(s.store, s.pending[c]);
  }

  lemma SettlingKeepsTheIndex(s: Store, write: Write)
    requires Mutual(s) && SubjectOf(write).customer != ""
    requires forall ownerKey :: ownerKey in s.memberOwners ==> s.memberOwners[ownerKey] != ""
    ensures var after := Written(s, write).0;
            Mutual(after) && forall ownerKey :: ownerKey in after.memberOwners ==> after.memberOwners[ownerKey] != ""
  {
    if write.Bind? {
      BindingKeepsTheIndexExactly(s, write.membership, write.member);
    } else {
      var after := Written(s, write).0;
      assert after.memberships == s.memberships && after.memberOwners == s.memberOwners;
    }
  }

  lemma DecidedForTheSession(s: Store, session: Session, call: Call, now: int)
    requires Decide(s, session, call, now).Ok? && Decide(s, session, call, now).value.Some?
    ensures var write := Decide(s, session, call, now).value.value;
            && SubjectOf(write) == CustomerKey(session.tenant, session.customer)
            && SubjectOf(write) in s.customers
            && s.customers[SubjectOf(write)].deletedAt.None?
  {
  }

  // ---------- deletion ----------

  /** What a deletion leaves: no profile, no active identity, no consent that is not withdrawn. */
  ghost predicate Erased(s: Store, owner: CustomerKey) {
    && owner in s.customers && s.customers[owner].deletedAt.Some? && s.customers[owner].profile == NO_PROFILE
    && (forall key :: key in s.identities && OwnerOf(s, key) == owner ==> s.identities[key].disabledAt.Some?)
    && (forall key :: key in s.consents && CustomerKey(key.tenant, key.customer) == owner ==> s.consents[key].status.Withdrawn?)
  }

  lemma EraseErases(s: Store, owner: CustomerKey, at: int)
    requires owner in s.customers && s.customers[owner].deletedAt.None?
    ensures Erased(EraseIn(s, owner, at).0, owner) && EraseIn(s, owner, at).0.customers[owner].deletedAt == Some(at)
    ensures EraseIn(s, owner, at).0.memberships == s.memberships
  {
  }

  /** The write puts something back: a profile, a consent that stands, an identity that was not linked. */
  predicate PutsBack(s: Store, write: Write) {
    match write
    case PutIdentity(_, key, _) => key !in s.identities
    case PutProfile(_, profile) => profile != NO_PROFILE
    case PutConsent(_, consent) => !consent.status.Withdrawn?
    case Bind(_, _) => false
    case Erase(_, _) => false
  }

  predicate Undoes(s: Store, write: Write, owner: CustomerKey) {
    SubjectOf(write) == owner && PutsBack(s, write)
  }

  /** A write leaves an erased account erased if and only if it puts nothing back in that account. */
  lemma UndoesExactly(s: Store, write: Write, owner: CustomerKey)
    requires Erased(s, owner)
    ensures Erased(Written(s, write).0, owner) <==> !Undoes(s, write, owner)
  {
    var after := Written(s, write).0;
    if Undoes(s, write, owner) {
      match write
      case PutIdentity(_, key, _) =>
        assert key in after.identities && OwnerOf(after, key) == owner && after.identities[key].disabledAt.None?;
      case PutProfile(_, _) =>
      case PutConsent(key, _) => assert key in after.consents && !after.consents[key].status.Withdrawn?;
    } else {
      NothingPutBack(s, write, owner);
    }
  }

  lemma NothingPutBack(s: Store, write: Write, owner: CustomerKey)
    requires Erased(s, owner) && !Undoes(s, write, owner)
    ensures Erased(Written(s, write).0, owner)
  {
  }

  predicate UndoneBy(s: State, step: Step, owner: CustomerKey) {
    step.Settle? && step.caller in s.pending && Undoes(s.store, s.pending[step.caller], owner)
  }

  lemma StepUndoes(s: State, step: Step, owner: CustomerKey)
    requires IdentitiesHaveCustomers(s.store) && Enabled(s, step) && Erased(s.store, owner)
    ensures Erased(Apply(s, step).store, owner) <==> !UndoneBy(s, step, owner)
  {
    match step
    case Enter(identity, provider, offered, profile) => SignInAdds(s.store, identity, provider, offered, profile);
    case Begin(_, _, _, _) =>
    case Settle(c) => UndoesExactly(s.store, s.pending[c], owner);
  }

  lemma {:induction false} ErasedSoFar(states: seq<State>, steps: seq<Step>, m: nat, n: nat, owner: CustomerKey)
    requires IsRun(states, steps) && m <= n < |states| && Erased(states[m].store, owner)
    requires forall j: nat :: m <= j < n ==> !UndoneBy(states[j], steps[j], owner)
    ensures Erased(states[n].store, owner)
  {
    if m < n {
      ErasedSoFar(states, steps, m, n - 1, owner);
      IdentitiesAlwaysHaveCustomers(states, steps, n - 1);
      StepUndoes(states[n - 1], steps[n - 1], owner);
    }
  }

  /** In every run, an erased account stays erased if and only if no write settles that puts something back in it. */
  lemma StaysErasedExactly(states: seq<State>, steps: seq<Step>, m: nat, owner: CustomerKey)
    requires IsRun(states, steps) && m < |states| && Erased(states[m].store, owner)
    ensures (forall n: nat :: m <= n < |states| ==> Erased(states[n].store, owner))
            <==> (forall j: nat :: m <= j < |steps| ==> !UndoneBy(states[j], steps[j], owner))
  {
    if forall j: nat :: m <= j < |steps| ==> !UndoneBy(states[j], steps[j], owner) {
      forall n: nat | m <= n < |states| ensures Erased(states[n].store, owner) {
        ErasedSoFar(states, steps, m, n, owner);
      }
    }
    if forall n: nat :: m <= n < |states| ==> Erased(states[n].store, owner) {
      forall j: nat | m <= j < |steps| ensures !UndoneBy(states[j], steps[j], owner) {
        IdentitiesAlwaysHaveCustomers(states, steps, j);
        assert Erased(states[j].store, owner) && Erased(states[j + 1].store, owner);
        StepUndoes(states[j], steps[j], owner);
      }
    }
  }

  /** A binding is added: the customer has none in the program, and the member is not another's. */
  predicate Adds(s: Store, write: Write, owner: CustomerKey) {
    write.Bind? && SubjectOf(write) == owner && write.membership !in s.memberships && BindIn(s, write.membership, write.member).1.None?
  }

  lemma AddsExactly(s: Store, write: Write, owner: CustomerKey)
    ensures Retained(Written(s, write).0, owner) == Retained(s, owner) <==> !Adds(s, write, owner)
  {
    var after := Written(s, write).0;
    if Adds(s, write, owner) {
      assert write.membership in Retained(after, owner) && write.membership !in Retained(s, owner);
    } else if write.Bind? {
      assert forall key :: key in Retained(s, owner) ==> key in Retained(after, owner);
    } else {
      assert after.memberships == s.memberships;
    }
  }

  /** No write settles that puts something back in a deleted account or adds a membership to it. */
  predicate Quiet(s: State, step: Step) {
    step.Settle? && step.caller in s.pending ==>
      var write := s.pending[step.caller];
      var owner := SubjectOf(write);
      owner in s.store.customers && s.store.customers[owner].deletedAt.Some? ==> !PutsBack(s.store, write) && !Adds(s.store, write, owner)
  }

  ghost predicate QuietRun(states: seq<State>, steps: seq<Step>) {
    IsRun(states, steps) && forall n :: 0 <= n < |steps| ==> Quiet(states[n], steps[n])
  }

  predicate IsDeleted(s: Store, owner: CustomerKey) {
    owner in s.customers && s.customers[owner].deletedAt.Some?
  }

  ghost predicate DeletedAreErased(s: Store) {
    forall owner :: IsDeleted(s, owner) ==> Erased(s, owner)
  }

  lemma WriteDeletesOnly(s: Store, write: Write, owner: CustomerKey)
    requires IsDeleted(Written(s, write).0, owner)
    ensures owner in s.customers
    ensures s.customers[owner].deletedAt.None? ==> write.Erase? && write.erased == owner
  {
  }

  lemma DeletionStep(s: State, step: Step)
    requires DeletedAreErased(s.store) && IdentitiesHaveCustomers(s.store) && Enabled(s, step) && Quiet(s, step)
    ensures DeletedAreErased(Apply(s, step).store)
  {
    var after := Apply(s, step);
    forall owner | IsDeleted(after.store, owner) ensures Erased(after.store, owner) {
      if step.Settle? {
        WriteDeletesOnly(s.store, s.pending[step.caller], owner);
      } else if step.Enter? {
        SignInAdds(s.store, step.identity, step.provider, step.offered, step.profile);
      }
      if IsDeleted(s.store, owner) {
        StepUndoes(s, step, owner);
      } else {
        EraseErases(s.store, owner, s.pending[step.caller].at);
      }
    }
  }

  lemma {:induction false} DeletionRun(states: seq<State>, steps: seq<Step>, n: nat)
    requires QuietRun(states, steps) && n < |states|
    ensures DeletedAreErased(states[n].store)
  {
    if n > 0 {
      DeletionRun(states, steps, n - 1);
      IdentitiesAlwaysHaveCustomers(states, steps, n - 1);
      DeletionStep(states[n - 1], steps[n - 1]);
    }
  }

  lemma RetainedStep(s: State, step: Step, owner: CustomerKey)
    requires Enabled(s, step) && Quiet(s, step) && IsDeleted(s.store, owner)
    ensures Retained(Apply(s, step).store, owner) == Retained(s.store, owner)
  {
    match step
    case Enter(identity, provider, offered, profile) => SignInAdds(s.store, identity, provider, offered, profile);
    case Begin(_, _, _, _) =>
    case Settle(c) => AddsExactly(s.store, s.pending[c], owner);
  }

  lemma {:induction false} RetainedSoFar(states: seq<State>, steps: seq<Step>, m: nat, n: nat, owner: CustomerKey)
    requires QuietRun(states, steps) && m <= n < |states| && IsDeleted(states[m].store, owner)
    ensures IsDeleted(states[n].store, owner) && Retained(states[n].store, owner) == Retained(states[m].store, owner)
  {
    if m < n {
      RetainedSoFar(states, steps, m, n - 1, owner);
      IdentitiesAlwaysHaveCustomers(states, steps, n - 1);
      StepExtends(states[n - 1], steps[n - 1]);
      RetainedStep(states[n - 1], steps[n - 1], owner);
    }
  }

  /** A deleted account stays erased for ever, with its date and exactly its memberships. */
  lemma ErasedForEver(states: seq<State>, steps: seq<Step>, m: nat, n: nat, owner: CustomerKey)
    requires QuietRun(states, steps) && m <= n < |states| && IsDeleted(states[m].store, owner)
    ensures Erased(states[n].store, owner) && Retained(states[n].store, owner) == Retained(states[m].store, owner)
    ensures states[n].store.customers[owner].deletedAt == states[m].store.customers[owner].deletedAt
  {
    BindingsAreForEver(states, steps, m, n);
    DeletionRun(states, steps, n);
    RetainedSoFar(states, steps, m, n, owner);
  }

  /** A profile update that crosses the deletion gives the deleted account a profile again. */
  lemma UpdateCrossesDeletion(s: State, session: Session, patch: Patch, now: int, c: nat, e: nat)
    requires c != e && s.pending == map[]
    requires Decide(s.store, session, UpdateProfile(patch), now).Ok?
    requires Patched(s.store.customers[CustomerKey(session.tenant, session.customer)].profile, patch) != Ok(NO_PROFILE)
    ensures var owner := CustomerKey(session.tenant, session.customer);
            var s1 := Apply(s, Begin(c, session, UpdateProfile(patch), now));
            && Enabled(s1, Begin(e, session, DeleteAccount, now))
            && var s2 := Apply(s1, Begin(e, session, DeleteAccount, now));
            && Enabled(s2, Settle(e))
            && var s3 := Apply(s2, Settle(e));
            && Erased(s3.store, owner) && Enabled(s3, Settle(c)) && UndoneBy(s3, Settle(c), owner)
            && !Erased(Apply(s3, Settle(c)).store, owner)
  {
    var owner := CustomerKey(session.tenant, session.customer);
    var s1 := Apply(s, Begin(c, session, UpdateProfile(patch), now));
    var s2 := Apply(s1, Begin(e, session, DeleteAccount, now));
    assert s2.pending[e] == Erase(owner, now) && s2.pending[c].PutProfile?;
    EraseErases(s2.store, owner, now);
    UndoesExactly(Apply(s2, Settle(e)).store, s2.pending[c], owner);
  }

  // ---------- calls that do not interleave ----------

  ghost predicate Serial(states: seq<State>, steps: seq<Step>) {
    IsRun(states, steps) && forall n :: 0 <= n < |steps| && steps[n].Begin? ==> states[n].pending == map[]
  }

  lemma {:induction false} OneInFlight(states: seq<State>, steps: seq<Step>, n: nat)
    requires Serial(states, steps) && n < |states|
    ensures forall b, c :: b in states[n].pending && c in states[n].pending ==> b == c
  {
    if n > 0 {
      OneInFlight(states, steps, n - 1);
      assert forall b :: b in states[n].pending ==>
               b in states[n - 1].pending || (steps[n - 1].Begin? && b == steps[n - 1].caller);
    }
  }

  /** A write in flight is for an account that is not deleted, or deletes it. */
  lemma {:induction false} NoneForDeleted(states: seq<State>, steps: seq<Step>, n: nat)
    requires Serial(states, steps) && n < |states|
    ensures forall c :: c in states[n].pending && !states[n].pending[c].Erase? ==>
              !IsDeleted(states[n].store, SubjectOf(states[n].pending[c]))
  {
    if n > 0 {
      NoneForDeleted(states, steps, n - 1);
      OneInFlight(states, steps, n - 1);
      var (s, step) := (states[n - 1], steps[n - 1]);
      match step
      case Enter(identity, provider, offered, profile) => SignInAdds(s.store, identity, provider, offered, profile);
      case Begin(c, session, call, now) =>
        if c in states[n].pending {
          DecidedForTheSession(s.store, session, call, now);
        }
      case Settle(c) => assert states[n].pending == map[];
    }
  }

  /** Calls made one after another never cross a deletion. */
  lemma SerialRunsAreQuiet(states: seq<State>, steps: seq<Step>)
    requires Serial(states, steps)
    ensures QuietRun(states, steps)
  {
    forall n | 0 <= n < |steps| ensures Quiet(states[n], steps[n]) {
      NoneForDeleted(states, steps, n);
    }
  }
}
