/** The customer directory of the identity package, and resolutions of sign-ins that run at the same time. */
module CustomerDirectory {
  import opened Prelude
  import opened Text

  datatype CustomerKey = CustomerKey(tenant: string, customer: string)

  datatype IdentityKey = IdentityKey(tenant: string, issuer: string, subject: string)

  datatype MemberKey = MemberKey(tenant: string, customer: string, program: string)

  /** A customer that was deleted keeps the instant of its first deletion. */
  datatype Customer = Active | Deleted(at: int)

  datatype DirectoryError = InvalidIdentity | CustomerNotFound | CustomerDeleted | IdentityConflict | MemberConflict | EnrollFailed

  datatype Directory = Directory(
    customers: map<CustomerKey, Customer>, identities: map<IdentityKey, string>, members: map<MemberKey, string>)

  function OwnerOf(d: Directory, key: IdentityKey): CustomerKey
    requires key in d.identities
  {
    CustomerKey(key.tenant, d.identities[key])
  }

  /** A linked identity is answered with its customer; a new one becomes a new customer with the offered id. */
  function ResolveOrCreate(d: Directory, key: IdentityKey, offered: string): (Directory, Result<string, DirectoryError>) {
    if key in d.identities then
      if OwnerOf(d, key) in d.customers then (d, Ok(d.identities[key])) else (d, Err(CustomerNotFound))
    else if CustomerKey(key.tenant, offered) in d.customers then (d, Err(IdentityConflict))
    else (d.(customers := d.customers[CustomerKey(key.tenant, offered) := Active], identities := d.identities[key := offered]),
          Ok(offered))
  }

  function LinkIdentity(d: Directory, customer: string, key: IdentityKey): (Directory, Option<DirectoryError>) {
    var owner := CustomerKey(key.tenant, customer);
    if owner !in d.customers then (d, Some(CustomerNotFound))
    else if d.customers[owner].Deleted? then (d, Some(CustomerDeleted))
    else if key in d.identities then (d, if d.identities[key] != customer then Some(IdentityConflict) else None)
    else (d.(identities := d.identities[key := customer]), None)
  }

  /** Linking asks whether the customer exists, not whether it was deleted. */
  function BindMember(d: Directory, key: MemberKey, member: string): (Directory, Result<string, DirectoryError>) {
    if CustomerKey(key.tenant, key.customer) !in d.customers then (d, Err(CustomerNotFound))
    else if key in d.members then (d, if d.members[key] != member then Err(MemberConflict) else Ok(member))
    else (d.(members := d.members[key := member]), Ok(member))
  }

  function MarkDeleted(d: Directory, key: CustomerKey, now: int): (Directory, Option<DirectoryError>) {
    if key !in d.customers then (d, Some(CustomerNotFound))
    else (d.(customers := d.customers[key := if d.customers[key].Deleted? then d.customers[key] else Deleted(now)]), None)
  }

  class MemoryCustomerDirectoryRepository {
    var customers: map<CustomerKey, Customer>
    var identities: map<IdentityKey, string>
    var members: map<MemberKey, string>

    ghost function View(): Directory
      reads this
    {
      Directory(customers, identities, members)
    }

    constructor ()
      ensures View() == Directory(map[], map[], map[])
    {
      customers, identities, members := map[], map[], map[];
    }

    method ResolveOrCreateCustomer(key: IdentityKey, offered: string) returns (r: Result<string, DirectoryError>)
      modifies this
      ensures (View(), r) == ResolveOrCreate(old(View()), key, offered)
    {
      if key in identities {
        if CustomerKey(key.tenant, identities[key]) !in customers {
          return Err(CustomerNotFound);
        }
        return Ok(identities[key]);
      }
      var record := CustomerKey(key.tenant, offered);
      if record in customers {
        return Err(IdentityConflict);
      }
      customers := customers[record := Active];
      identities := identities[key := offered];
      return Ok(offered);
    }

    method LinkExternalIdentity(customer: string, key: IdentityKey) returns (e: Option<DirectoryError>)
      modifies this
      ensures (View(), e) == LinkIdentity(old(View()), customer, key)
    {
      var owner := CustomerKey(key.tenant, customer);
      if owner !in customers {
        return Some(CustomerNotFound);
      }
      if customers[owner].Deleted? {
        return Some(CustomerDeleted);
      }
      if key in identities {
        return if identities[key] != customer then Some(IdentityConflict) else None;
      }
      identities := identities[key := customer];
      return None;
    }

    method LinkMember(key: MemberKey, member: string) returns (r: Result<string, DirectoryError>)
      modifies this
      ensures (View(), r) == BindMember(old(View()), key, member)
    {
      if CustomerKey(key.tenant, key.customer) !in customers {
        return Err(CustomerNotFound);
      }
      if key in members && members[key] != member {
        return Err(MemberConflict);
      }
      if key !in members {
        members := members[key := member];
      }
      return Ok(member);
    }

    method MarkCustomerDeleted(key: CustomerKey, now: int) returns (e: Option<DirectoryError>)
      modifies this
      ensures (View(), e) == MarkDeleted(old(View()), key, now)
    {
      if key !in customers {
        return Some(CustomerNotFound);
      }
      var customer := customers[key];
      customers := customers[key := if customer.Deleted? then customer else Deleted(now)];
      return None;
    }
  }

  class CustomerLoyaltyResolver {
    const repository: MemoryCustomerDirectoryRepository
    const enroll: MemberKey -> Option<string>

    constructor (repository: MemoryCustomerDirectoryRepository, enroll: MemberKey -> Option<string>)
      ensures this.repository == repository && this.enroll == enroll
    {
      this.repository, this.enroll := repository, enroll;
    }

    /** One resolution that nothing interrupts; a failed enrollment leaves the new customer without a member. */
    method Resolve(key: IdentityKey, program: string, offered: string) returns (r: Result<(string, string), DirectoryError>)
      modifies repository
      ensures (repository.View(), r) == Resolved(old(repository.View()), key, program, offered, enroll)
    {
      var customer := repository.ResolveOrCreateCustomer(key, offered);
      if customer.Err? {
        return Err(customer.error);
      }
      var record := CustomerKey(key.tenant, customer.value);
      if record in repository.customers && repository.customers[record].Deleted? {
        return Err(CustomerDeleted);
      }
      var memberKey := MemberKey(key.tenant, customer.value, program);
      if memberKey in repository.members {
        return Ok((customer.value, repository.members[memberKey]));
      }
      var member := enroll(memberKey);
      if member.None? {
        return Err(EnrollFailed);
      }
      var linked := repository.LinkMember(memberKey, member.value);
      if linked.Err? {
        return Err(linked.error);
      }
      return Ok((customer.value, linked.value));
    }
  }

  function Resolved(d: Directory, key: IdentityKey, program: string, offered: string, enroll: MemberKey -> Option<string>)
    : (Directory, Result<(string, string), DirectoryError>)
  {
    match ResolveOrCreate(d, key, offered)
    case (d1, Err(e)) => (d1, Err(e))
    case (d1, Ok(customer)) =>
      var record := CustomerKey(key.tenant, customer);
      var memberKey := MemberKey(key.tenant, customer, program);
      if record in d1.customers && d1.customers[record].Deleted? then (d1, Err(CustomerDeleted))
      else if memberKey in d1.members then (d1, Ok((customer, d1.members[memberKey])))
      else match enroll(memberKey)
           case None => (d1, Err(EnrollFailed))
           case Some(member) =>
             match BindMember(d1, memberKey, member)
             case (d2, Err(e)) => (d2, Err(e))
             case (d2, Ok(linked)) => (d2, Ok((customer, linked)))
  }

  // ---------- what each call does, told of the directory ----------

  /**
   A resolution: a linked identity stands for its customer, a new one for a new customer, and a customer
   that was deleted is refused; the member is the stored link, or the one the enrollment answers with,
   which is then stored.
   */
  lemma ResolvedExactly(d: Directory, key: IdentityKey, program: string, offered: string, enroll: MemberKey -> Option<string>)
    ensures var (after, r) := Resolved(d, key, program, offered, enroll);
            var customer := if key in d.identities then d.identities[key] else offered;
            var (owner, memberKey) := (CustomerKey(key.tenant, customer), MemberKey(key.tenant, customer, program));
            if key in d.identities && owner !in d.customers then r == Err(CustomerNotFound) && after == d
            else if key in d.identities && d.customers[owner].Deleted? then r == Err(CustomerDeleted) && after == d
            else if key !in d.identities && owner in d.customers then r == Err(IdentityConflict) && after == d
            else
              && after.identities == d.identities[key := customer]
              && after.customers == (if key in d.identities then d.customers else d.customers[owner := Active])
              && (if memberKey in d.members then r == Ok((customer, d.members[memberKey])) && after.members == d.members
                  else match enroll(memberKey)
                       case None => r == Err(EnrollFailed) && after.members == d.members
                       case Some(member) => r == Ok((customer, member)) && after.members == d.members[memberKey := member])
  {
    assert key in d.identities ==> d.identities == d.identities[key := d.identities[key]];
  }

  /** An identity is linked to a customer exactly when that is there and not deleted, and the identity is nobody else's. */
  lemma LinkedExactly(d: Directory, customer: string, key: IdentityKey)
    ensures var ((after, e), owner) := (LinkIdentity(d, customer, key), CustomerKey(key.tenant, customer));
            && (e == Some(CustomerNotFound) <==> owner !in d.customers)
            && (e == Some(CustomerDeleted) <==> owner in d.customers && d.customers[owner].Deleted?)
            && (e.None? <==>
                  && owner in d.customers && d.customers[owner].Active?
                  && (key in d.identities ==> d.identities[key] == customer))
            && after == (if e.None? then d.(identities := d.identities[key := customer]) else d)
  {
    assert key in d.identities ==> d.identities == d.identities[key := d.identities[key]];
  }

  /** A member is linked exactly when the customer exists, deleted or not, and has no other member in the program. */
  lemma BoundExactly(d: Directory, key: MemberKey, member: string)
    ensures var (after, r) := BindMember(d, key, member);
            && (r == Err(CustomerNotFound) <==> CustomerKey(key.tenant, key.customer) !in d.customers)
            && (r.Ok? <==> CustomerKey(key.tenant, key.customer) in d.customers && (key in d.members ==> d.members[key] == member))
            && (r.Ok? ==> r.value == member && after == d.(members := d.members[key := member])) && (r.Err? ==> after == d)
  {
    assert key in d.members ==> d.members == d.members[key := d.members[key]];
  }

  /** A deletion dates the customer once and touches nothing else. */
  lemma MarkedExactly(d: Directory, key: CustomerKey, now: int)
    ensures var (after, e) := MarkDeleted(d, key, now);
            && (e.None? <==> key in d.customers) && (e.Some? ==> after == d) && after.identities == d.identities && after.members == d.members
            && after.customers.Keys == d.customers.Keys
            && (forall other :: other in d.customers && other != key ==> after.customers[other] == d.customers[other])
            && (key in d.customers ==>
                  after.customers[key] == if d.customers[key].Active? then Deleted(now) else d.customers[key])
  {
  }
}

/** Resolutions in flight at once, with links and deletions made between their steps. */
module CustomerResolution {
  import opened Prelude
  import opened CustomerDirectory

  datatype Phase =
    | Called
    | Found(found: string)
    | Unlinked(unlinked: string)
    | Enrolled(enrolled: string, granted: string)
    | Done(customer: string, member: string)
    | Failed(error: DirectoryError)

  datatype Flight = Flight(identity: IdentityKey, program: string, phase: Phase)

  datatype State = State(d: Directory, flights: map<nat, Flight>)

  /** Each step is one call of the repository or of the loyalty service; the last three are made by others. */
  datatype Step =
    | Call(f: nat, identity: IdentityKey, program: string)
    | FindCustomer(f: nat, offered: string)
    | ReadMember(f: nat)
    | EnrollMember(f: nat, answer: Option<string>)
    | StoreMember(f: nat)
    | LinkByOthers(customer: string, linked: IdentityKey)
    | BindByOthers(key: MemberKey, member: string)
    | Delete(deleted: CustomerKey, now: int)

  predicate Enabled(s: State, step: Step) {
    match step
    case Call(f, _, _) => f !in s.flights
    case FindCustomer(f, _) => f in s.flights && s.flights[f].phase.Called?
    case ReadMember(f) => f in s.flights && s.flights[f].phase.Found?
    case EnrollMember(f, _) => f in s.flights && s.flights[f].phase.Unlinked?
    case StoreMember(f) => f in s.flights && s.flights[f].phase.Enrolled?
    case LinkByOthers(_, _) => true
    case BindByOthers(_, _) => true
    case Delete(_, _) => true
  }

  function At(s: State, f: nat, phase: Phase): map<nat, Flight>
    requires f in s.flights
  {
    s.flights[f := s.flights[f].(phase := phase)]
  }

  function KeyOf(s: State, f: nat, customer: string): MemberKey
    requires f in s.flights
  {
    MemberKey(s.flights[f].identity.tenant, customer, s.flights[f].program)
  }

  function Find(s: State, f: nat, offered: string): State
    requires f in s.flights
  {
    var (d, r) := ResolveOrCreate(s.d, s.flights[f].identity, offered);
    var phase := match r
      case Err(e) => Failed(e)
      case Ok(customer) =>
        var record := CustomerKey(s.flights[f].identity.tenant, customer);
        if record in d.customers && d.customers[record].Deleted? then Failed(CustomerDeleted) else Found(customer);
    State(d, At(s, f, phase))
  }

  function Store(s: State, f: nat): State
    requires f in s.flights && s.flights[f].phase.Enrolled?
  {
    var (customer, member) := (s.flights[f].phase.enrolled, s.flights[f].phase.granted);
    var (d, r) := BindMember(s.d, KeyOf(s, f, customer), member);
    State(d, At(s, f, if r.Ok? then Done(customer, r.value) else Failed(r.error)))
  }

  function Apply(s: State, step: Step): State
    requires Enabled(s, step)
  {
    match step
    case Call(f, identity, program) => s.(flights := s.flights[f := Flight(identity, program, Called)])
    case FindCustomer(f, offered) => Find(s, f, offered)
    case ReadMember(f) =>
      var customer := s.flights[f].phase.found;
      var key := KeyOf(s, f, customer);
      s.(flights := At(s, f, if key in s.d.members then Done(customer, s.d.members[key]) else Unlinked(customer)))
    case EnrollMember(f, answer) =>
      s.(flights := At(s, f, if answer.Some? then Enrolled(s.flights[f].phase.unlinked, answer.value) else Failed(EnrollFailed)))
    case StoreMember(f) => Store(s, f)
    case LinkByOthers(customer, identity) => s.(d := LinkIdentity(s.d, customer, identity).0)
    case BindByOthers(key, member) => s.(d := BindMember(s.d, key, member).0)
    case Delete(key, now) => s.(d := MarkDeleted(s.d, key, now).0)
  }

  ghost predicate IsRun(states: seq<State>, steps: seq<Step>) {
    && |states| == |steps| + 1 && states[0] == State(Directory(map[], map[], map[]), map[])
    && forall n :: 0 <= n < |steps| ==> Enabled(states[n], steps[n]) && states[n + 1] == Apply(states[n], steps[n])
  }

  // ---------- the object's resolution is one of these ----------

  ghost predicate Reaches(s: State, steps: seq<Step>, t: State)
    decreases |steps|
  {
    if steps == [] then s == t else Enabled(s, steps[0]) && Reaches(Apply(s, steps[0]), steps[1..], t)
  }

  lemma ReachesOne(s: State, step: Step, rest: seq<Step>, t: State)
    requires Enabled(s, step) && Reaches(Apply(s, step), rest, t)
    ensures Reaches(s, [step] + rest, t)
  {
    assert ([step] + rest)[1..] == rest;
  }

  function PhaseOf(r: Result<(string, string), DirectoryError>): Phase {
    match r
    case Ok((customer, member)) => Done(customer, member)
    case Err(e) => Failed(e)
  }

  predicate StepOf(step: Step, f: nat) {
    && (step.Call? || step.FindCustomer? || step.ReadMember? || step.EnrollMember? || step.StoreMember?)
    && step.f == f
  }

  lemma MemberIsARun(s: State, f: nat, enroll: MemberKey -> Option<string>) returns (steps: seq<Step>, t: State)
    requires f in s.flights && s.flights[f].phase.Found?
    ensures Reaches(s, steps, t) && forall k :: 0 <= k < |steps| ==> StepOf(steps[k], f)
    ensures var (customer, key) := (s.flights[f].phase.found, KeyOf(s, f, s.flights[f].phase.found));
            var (d, r) := if key in s.d.members then (s.d, Ok((customer, s.d.members[key])))
                          else match enroll(key)
                               case None => (s.d, Err(EnrollFailed))
                               case Some(member) =>
                                 match BindMember(s.d, key, member)
                                 case (d2, Err(e)) => (d2, Err(e))
                                 case (d2, Ok(linked)) => (d2, Ok((customer, linked)));
            t == State(d, At(s, f, PhaseOf(r)))
  {
    var key := KeyOf(s, f, s.flights[f].phase.found);
    var read := Apply(s, ReadMember(f));
    if key in s.d.members {
      t := read;
      assert Reaches(t, [], t);
      steps := [];
    } else {
      var enrolled := Apply(read, EnrollMember(f, enroll(key)));
      if enroll(key).None? {
        t := enrolled;
        assert Reaches(t, [], t);
        steps := [];
      } else {
        t := Apply(enrolled, StoreMember(f));
        assert Reaches(t, [], t);
        ReachesOne(enrolled, StoreMember(f), [], t);
        steps := [StoreMember(f)] + [];
      }
      ReachesOne(read, EnrollMember(f, enroll(key)), steps, t);
      steps := [EnrollMember(f, enroll(key))] + steps;
    }
    ReachesOne(s, ReadMember(f), steps, t);
    steps := [ReadMember(f)] + steps;
  }

  /** Whatever one uninterrupted resolution stores and answers, its own steps reach from the same state. */
  lemma ResolveIsARun(s: State, f: nat, key: IdentityKey, program: string, offered: string, enroll: MemberKey -> Option<string>)
    returns (steps: seq<Step>, t: State)
    requires f !in s.flights
    ensures Reaches(s, steps, t) && steps != [] && steps[0] == Call(f, key, program)
    ensures forall k :: 0 <= k < |steps| ==> StepOf(steps[k], f)
    ensures var (d, r) := Resolved(s.d, key, program, offered, enroll);
            t.d == d && t.flights == s.flights[f := Flight(key, program, PhaseOf(r))]
  {
    var called := Apply(s, Call(f, key, program));
    var found := Apply(called, FindCustomer(f, offered));
    if found.flights[f].phase.Found? {
      steps, t := MemberIsARun(found, f, enroll);
    } else {
      t := found;
      assert Reaches(t, [], t);
      steps := [];
    }
    ReachesOne(called, FindCustomer(f, offered), steps, t);
    steps := [FindCustomer(f, offered)] + steps;
    ReachesOne(s, Call(f, key, program), steps, t);
    steps := [Call(f, key, program)] + steps;
  }

  // ---------- bindings are for ever ----------

  /** Everything bound stays bound to the same, and what is deleted stays deleted since the same instant. */
  ghost predicate Extends(before: Directory, after: Directory) {
    && (forall key :: key in before.identities ==> key in after.identities && after.identities[key] == before.identities[key])
    && (forall key :: key in before.members ==> key in after.members && after.members[key] == before.members[key])
    && (forall key :: key in before.customers ==>
          key in after.customers && (before.customers[key].Deleted? ==> after.customers[key] == before.customers[key]))
  }

  lemma StepExtends(s: State, step: Step)
    requires Enabled(s, step)
    ensures Extends(s.d, Apply(s, step).d)
  {
  }

  lemma ExtendsFurther(a: Directory, b: Directory, c: Directory)
    requires Extends(a, b) && Extends(b, c)
    ensures Extends(a, c)
  {
  }

  lemma {:induction false} ExtendsThroughout(states: seq<State>, m: nat, n: nat)
    requires m <= n < |states| && forall k :: m <= k < n ==> Extends(states[k].d, states[k + 1].d)
    ensures Extends(states[m].d, states[n].d)
  {
    if m < n {
      ExtendsThroughout(states, m, n - 1);
      ExtendsFurther(states[m].d, states[n - 1].d, states[n].d);
    }
  }

  lemma BindingsAreForEver(states: seq<State>, steps: seq<Step>, m: nat, n: nat)
    requires IsRun(states, steps) && m <= n < |states|
    ensures Extends(states[m].d, states[n].d)
  {
    forall k | m <= k < n ensures Extends(states[k].d, states[k + 1].d) {
      StepExtends(states[k], steps[k]);
    }
    ExtendsThroughout(states, m, n);
  }

  // ---------- successes agree ----------

  function CustomerOf(phase: Phase): Option<string> {
    match phase
    case Called => None
    case Found(customer) => Some(customer)
    case Unlinked(customer) => Some(customer)
    case Enrolled(customer, _) => Some(customer)
    case Done(customer, _) => Some(customer)
    case Failed(_) => None
  }

  /** A flight that knows a customer was told so by the identity it asked for, and a finished one by the member link. */
  predicate FlightOk(d: Directory, flight: Flight) {
    && (CustomerOf(flight.phase).Some? ==>
          flight.identity in d.identities && d.identities[flight.identity] == CustomerOf(flight.phase).value)
    && (flight.phase.Done? ==>
          var key := MemberKey(flight.identity.tenant, flight.phase.customer, flight.program);
          key in d.members && d.members[key] == flight.phase.member)
  }

  ghost predicate Inv(s: State) {
    && (forall f :: f in s.flights ==> FlightOk(s.d, s.flights[f]))
    && (forall key :: key in s.d.identities ==> OwnerOf(s.d, key) in s.d.customers)
    && (forall key :: key in s.d.members ==> CustomerKey(key.tenant, key.customer) in s.d.customers)
  }

  lemma StillOk(before: Directory, after: Directory, flight: Flight)
    requires FlightOk(before, flight) && Extends(before, after)
    ensures FlightOk(after, flight)
  {
  }

  lemma OwnersExist(s: State, step: Step)
    requires Inv(s) && Enabled(s, step)
    ensures var d := Apply(s, step).d;
            && (forall key :: key in d.identities ==> OwnerOf(d, key) in d.customers)
            && (forall key :: key in d.members ==> CustomerKey(key.tenant, key.customer) in d.customers)
  {
    if step.FindCustomer? {
      assert FlightOk(s.d, s.flights[step.f]);
    }
  }

  lemma MoverIsOk(s: State, step: Step)
    requires Inv(s) && Enabled(s, step) && !step.LinkByOthers? && !step.BindByOthers? && !step.Delete?
    ensures step.f in Apply(s, step).flights && FlightOk(Apply(s, step).d, Apply(s, step).flights[step.f])
  {
    if !step.Call? {
      assert FlightOk(s.d, s.flights[step.f]);
    }
  }

  /** A step moves one flight at most. */
  lemma OthersWait(s: State, step: Step, f: nat)
    requires Enabled(s, step) && f in Apply(s, step).flights
    requires step.LinkByOthers? || step.BindByOthers? || step.Delete? || step.f != f
    ensures f in s.flights && Apply(s, step).flights[f] == s.flights[f]
  {
  }

  lemma StepKeepsInv(s: State, step: Step)
    requires Inv(s) && Enabled(s, step)
    ensures Inv(Apply(s, step))
  {
    OwnersExist(s, step);
    forall f | f in Apply(s, step).flights ensures FlightOk(Apply(s, step).d, Apply(s, step).flights[f]) {
      if step.LinkByOthers? || step.BindByOthers? || step.Delete? || step.f != f {
        OthersWait(s, step, f);
        StepExtends(s, step);
        StillOk(s.d, Apply(s, step).d, s.flights[f]);
      } else {
        MoverIsOk(s, step);
      }
    }
  }

  lemma {:induction false} RunKeepsInv(states: seq<State>, steps: seq<Step>, n: nat)
    requires IsRun(states, steps) && n < |states|
    ensures Inv(states[n])
  {
    if n > 0 {
      RunKeepsInv(states, steps, n - 1);
      StepKeepsInv(states[n - 1], steps[n - 1]);
    }
  }

  /** However resolutions interleave, all that succeed for one principal and program return the same customer and member. */
  lemma SuccessesAgree(states: seq<State>, steps: seq<Step>, m: nat, n: nat, f: nat, g: nat)
    requires IsRun(states, steps) && m < |states| && n < |states| && f in states[m].flights && g in states[n].flights
    requires states[m].flights[f].phase.Done? && states[n].flights[g].phase.Done?
    requires states[m].flights[f].identity == states[n].flights[g].identity
    requires states[m].flights[f].program == states[n].flights[g].program
    ensures states[m].flights[f].phase == states[n].flights[g].phase
  {
    RunKeepsInv(states, steps, m);
    RunKeepsInv(states, steps, n);
    assert FlightOk(states[m].d, states[m].flights[f]) && FlightOk(states[n].d, states[n].flights[g]);
    if m <= n {
      BindingsAreForEver(states, steps, m, n);
    } else {
      BindingsAreForEver(states, steps, n, m);
    }
  }

  // ---------- no conflict when enrollment is idempotent ----------

  /** Enrollment answers by its idempotency key, and others bind only what it would answer. */
  predicate Idempotent(s: State, step: Step, enroll: MemberKey -> string) {
    && (step.EnrollMember? && step.f in s.flights && s.flights[step.f].phase.Unlinked? && step.answer.Some? ==>
          step.answer.value == enroll(KeyOf(s, step.f, s.flights[step.f].phase.unlinked)))
    && (step.BindByOthers? ==> step.member == enroll(step.key))
  }

  ghost predicate IdempotentRun(states: seq<State>, steps: seq<Step>, enroll: MemberKey -> string) {
    IsRun(states, steps) && forall n :: 0 <= n < |steps| ==> Idempotent(states[n], steps[n], enroll)
  }

  ghost predicate Enrollments(s: State, enroll: MemberKey -> string) {
    && (forall key :: key in s.d.members ==> s.d.members[key] == enroll(key))
    && (forall f :: f in s.flights && s.flights[f].phase.Enrolled? ==>
          s.flights[f].phase.granted == enroll(KeyOf(s, f, s.flights[f].phase.enrolled)))
    && (forall f :: f in s.flights && s.flights[f].phase.Failed? ==>
          !s.flights[f].phase.error.MemberConflict? && !s.flights[f].phase.error.CustomerNotFound?)
  }

  lemma EnrollmentsStep(s: State, step: Step, enroll: MemberKey -> string)
    requires Inv(s) && Enrollments(s, enroll) && Enabled(s, step) && Idempotent(s, step, enroll)
    ensures Enrollments(Apply(s, step), enroll)
  {
    if step.StoreMember? {
      assert FlightOk(s.d, s.flights[step.f]);
      assert OwnerOf(s.d, s.flights[step.f].identity) in s.d.customers;
    }
    if step.FindCustomer? && s.flights[step.f].identity in s.d.identities {
      assert OwnerOf(s.d, s.flights[step.f].identity) in s.d.customers;
    }
  }

  /** Then no resolution ever fails over its member link, or finds its customer missing. */
  lemma {:induction false} NoConflicts(states: seq<State>, steps: seq<Step>, n: nat, enroll: MemberKey -> string)
    requires IdempotentRun(states, steps, enroll) && n < |states|
    ensures Enrollments(states[n], enroll)
  {
    if n > 0 {
      NoConflicts(states, steps, n - 1, enroll);
      RunKeepsInv(states, steps, n - 1);
      EnrollmentsStep(states[n - 1], steps[n - 1], enroll);
    }
  }

  // ---------- deletion ----------

  ghost predicate OfDeleted(d: Directory, identity: IdentityKey) {
    identity in d.identities && OwnerOf(d, identity) in d.customers && d.customers[OwnerOf(d, identity)].Deleted?
  }

  /** A resolution that has not read its customer before the customer is deleted never succeeds. */
  lemma {:induction false} NoneSucceedsAfterDeletion(states: seq<State>, steps: seq<Step>, m: nat, n: nat, f: nat)
    requires IsRun(states, steps) && m <= n < |states| && f in states[m].flights
    requires OfDeleted(states[m].d, states[m].flights[f].identity) && states[m].flights[f].phase.Called?
    ensures f in states[n].flights && states[n].flights[f].identity == states[m].flights[f].identity
    ensures states[n].flights[f].phase == Called || states[n].flights[f].phase == Failed(CustomerDeleted)
  {
    if m < n {
      NoneSucceedsAfterDeletion(states, steps, m, n - 1, f);
      BindingsAreForEver(states, steps, m, n - 1);
      var (s, step) := (states[n - 1], steps[n - 1]);
      if step.FindCustomer? && step.f == f {
        assert OfDeleted(s.d, s.flights[f].identity);
      }
    }
  }

  /** The member links of a customer. */
  function LinksOf(d: Directory, owner: CustomerKey): map<MemberKey, string> {
    map key | key in d.members && CustomerKey(key.tenant, key.customer) == owner :: d.members[key]
  }

  /** A resolution or somebody else stores a link for a customer that has none in the program. */
  predicate Links(s: State, step: Step, owner: CustomerKey) {
    || (&& step.StoreMember? && step.f in s.flights && s.flights[step.f].phase.Enrolled?
        && owner == CustomerKey(s.flights[step.f].identity.tenant, s.flights[step.f].phase.enrolled)
        && KeyOf(s, step.f, s.flights[step.f].phase.enrolled) !in s.d.members)
    || (&& step.BindByOthers? && owner == CustomerKey(step.key.tenant, step.key.customer) && step.key !in s.d.members)
  }

  predicate IsDeleted(d: Directory, owner: CustomerKey) {
    owner in d.customers && d.customers[owner].Deleted?
  }

  /** A step changes the links of a deleted customer if and only if it stores one that was absent. */
  lemma LinksOfDeletedChangeExactly(s: State, step: Step, owner: CustomerKey)
    requires Enabled(s, step) && IsDeleted(s.d, owner)
    ensures LinksOf(Apply(s, step).d, owner) == LinksOf(s.d, owner) <==> !Links(s, step, owner)
  {
    var after := Apply(s, step);
    if Links(s, step, owner) {
      var key := if step.BindByOthers? then step.key else KeyOf(s, step.f, s.flights[step.f].phase.enrolled);
      assert key in LinksOf(after.d, owner) && key !in LinksOf(s.d, owner);
    } else {
      SameLinks(s, step, owner);
    }
  }

  lemma SameLinks(s: State, step: Step, owner: CustomerKey)
    requires Enabled(s, step) && !Links(s, step, owner)
    ensures LinksOf(Apply(s, step).d, owner) == LinksOf(s.d, owner)
  {
    var (before, after) := (s.d.members, Apply(s, step).d.members);
    assert forall key :: key in after && CustomerKey(key.tenant, key.customer) == owner ==> key in before && after[key] == before[key];
    assert forall key :: key in before ==> key in after && after[key] == before[key];
  }

  lemma {:induction false} SameThroughout(states: seq<State>, m: nat, n: nat, owner: CustomerKey)
    requires m <= n < |states| && forall k :: m <= k < n ==> LinksOf(states[k + 1].d, owner) == LinksOf(states[k].d, owner)
    ensures LinksOf(states[n].d, owner) == LinksOf(states[m].d, owner)
  {
    if m < n {
      SameThroughout(states, m, n - 1, owner);
    }
  }

  lemma SameLinksSoFar(states: seq<State>, steps: seq<Step>, m: nat, n: nat, owner: CustomerKey)
    requires IsRun(states, steps) && m <= n < |states|
    requires forall j: nat :: m <= j < n ==> !Links(states[j], steps[j], owner)
    ensures LinksOf(states[n].d, owner) == LinksOf(states[m].d, owner)
  {
    forall k | m <= k < n ensures LinksOf(states[k + 1].d, owner) == LinksOf(states[k].d, owner) {
      SameLinks(states[k], steps[k], owner);
    }
    SameThroughout(states, m, n, owner);
  }

  /** In every run, a deleted customer keeps exactly its links for ever if and only if no such step follows. */
  lemma LinksAreFrozenExactly(states: seq<State>, steps: seq<Step>, m: nat, owner: CustomerKey)
    requires IsRun(states, steps) && m < |states| && IsDeleted(states[m].d, owner)
    ensures (forall n: nat :: m <= n < |states| ==> LinksOf(states[n].d, owner) == LinksOf(states[m].d, owner))
            <==> (forall j: nat :: m <= j < |steps| ==> !Links(states[j], steps[j], owner))
  {
    if forall j: nat :: m <= j < |steps| ==> !Links(states[j], steps[j], owner) {
      forall n: nat | m <= n < |states| ensures LinksOf(states[n].d, owner) == LinksOf(states[m].d, owner) {
        SameLinksSoFar(states, steps, m, n, owner);
      }
    }
    if forall n: nat :: m <= n < |states| ==> LinksOf(states[n].d, owner) == LinksOf(states[m].d, owner) {
      forall j: nat | m <= j < |steps| ensures !Links(states[j], steps[j], owner) {
        BindingsAreForEver(states, steps, m, j);
        assert LinksOf(states[j].d, owner) == LinksOf(states[j + 1].d, owner);
        LinksOfDeletedChangeExactly(states[j], steps[j], owner);
      }
    }
  }

  /** One that has read it before can still succeed, and links a member to the deleted customer. */
  lemma DeletionCrossesResolution(s: State, f: nat, now: int)
    requires Inv(s) && f in s.flights && s.flights[f].phase.Enrolled? && KeyOf(s, f, s.flights[f].phase.enrolled) !in s.d.members
    ensures var (customer, member) := (s.flights[f].phase.enrolled, s.flights[f].phase.granted);
            var owner := CustomerKey(s.flights[f].identity.tenant, customer);
            var gone := Apply(s, Delete(owner, now));
            && IsDeleted(gone.d, owner) && Links(gone, StoreMember(f), owner)
            && var after := Apply(gone, StoreMember(f));
               after.flights[f].phase == Done(customer, member)
               && KeyOf(s, f, customer) in after.d.members && after.d.members[KeyOf(s, f, customer)] == member
  {
    assert FlightOk(s.d, s.flights[f]);
    assert OwnerOf(s.d, s.flights[f].identity) in s.d.customers;
  }
}
