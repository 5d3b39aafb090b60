/** The in-memory operator directory and the service in front of it, one call at a time. */
module OperatorDirectory {
  import opened Prelude
  import opened Expiry
  import opened Text
  import opened Operators

  class MemoryOperatorRepository {
    var operators: map<string, Operator>
    var operatorKeys: map<string, Key>

    ghost function View(): Directory
      reads this
    {
      Directory(operators, operatorKeys)
    }

    constructor ()
      ensures View() == Directory(map[], map[])
    {
      operators, operatorKeys := map[], map[];
    }

    method SubjectExists(subject: string) returns (found: bool)
      ensures found == SubjectTaken(operators, subject)
    {
      found := false;
      var rest := operators.Keys;
      while rest != {} && !found
        invariant rest <= operators.Keys
        invariant !found ==> forall id :: id in operators && id !in rest ==> operators[id].subject != subject
        invariant found ==> SubjectTaken(operators, subject)
        decreases rest
      {
        var id :| id in rest;
        found := operators[id].subject == subject;
        rest := rest - {id};
      }
    }

    method CreateOperator(id: string, operator: Operator, keyId: string, key: Key, bootstrap: bool) returns (r: Option<Refusal>)
      modifies this
      ensures (View(), r) == Committed(old(View()), AddOperator(id, operator, keyId, key, bootstrap))
    {
      if bootstrap && |operators| > 0 {
        return Some(Conflict);
      }
      var duplicate := SubjectExists(operator.subject);
      if duplicate || id in operators {
        return Some(Conflict);
      }
      operators := operators[id := operator];
      operatorKeys := operatorKeys[keyId := key];
      return None;
    }

    method CountActiveAdmins() returns (count: nat)
      ensures count == |ActiveAdmins(View())|
    {
      count := 0;
      var rest := operators.Keys;
      ghost var seen: set<string> := {};
      while rest != {}
        invariant rest <= operators.Keys && seen !! rest && count == |seen|
        invariant forall id :: id in seen <==> id !in rest && IsActiveAdmin(View(), id)
        decreases rest
      {
        var id :| id in rest;
        if operators[id].active && operators[id].role.PlatformAdmin? {
          count := count + 1;
          seen := seen + {id};
        }
        rest := rest - {id};
      }
      assert seen == ActiveAdmins(View());
    }

    method UpdateOperator(id: string, active: bool, guard: bool) returns (r: Option<Refusal>)
      modifies this
      ensures (View(), r) == Committed(old(View()), SetActive(id, active, guard))
    {
      if id !in operators {
        return Some(NotFound);
      }
      var existing := operators[id];
      if guard && !active {
        var admins := CountActiveAdmins();
        if admins <= 1 && existing.active && existing.role.PlatformAdmin? {
          return Some(Lockout);
        }
      }
      operators := operators[id := existing.(active := active)];
      return None;
    }

    method RotateOperatorApiKey(replaced: string, end: int, keyId: string, key: Key) returns (r: Option<Refusal>)
      modifies this
      ensures (View(), r) == Committed(old(View()), Replace(replaced, end, keyId, key))
    {
      if replaced !in operatorKeys {
        return Some(NotFound);
      }
      operatorKeys := operatorKeys[replaced := operatorKeys[replaced].(expires := Some(end))];
      operatorKeys := operatorKeys[keyId := key];
      return None;
    }

    method RevokeOperatorApiKey(revoked: string, at: int)
      modifies this
      ensures (View(), None) == Committed(old(View()), Revoke(revoked, at))
    {
      if revoked in operatorKeys {
        operatorKeys := operatorKeys[revoked := operatorKeys[revoked].(active := false, revokedAt := Some(at))];
      }
    }

    /** A key that is inactive, or whose operator is, is never handed out; expiry is left to the caller. */
    method OperatorByApiKeyHash(secretHash: string) returns (r: Option<(string, string)>)
      ensures r.Some? ==> && r.value.1 in operatorKeys && operatorKeys[r.value.1].secretHash == secretHash
                          && operatorKeys[r.value.1].active && operatorKeys[r.value.1].revokedAt.None?
                          && operatorKeys[r.value.1].operator == r.value.0
                          && r.value.0 in operators && operators[r.value.0].active
      ensures r.None? && UniqueHashes(View()) ==>
                forall now, operator :: !Authenticates(View(), secretHash, now, operator)
    {
      var rest := operatorKeys.Keys;
      while rest != {}
        invariant rest <= operatorKeys.Keys
        invariant forall k :: k in operatorKeys && k !in rest ==> operatorKeys[k].secretHash != secretHash
        decreases rest
      {
        var k :| k in rest;
        var key := operatorKeys[k];
        if key.secretHash == secretHash {
          if !key.active || key.revokedAt.Some? || key.operator !in operators || !operators[key.operator].active {
            return None;
          }
          return Some((key.operator, k));
        }
        rest := rest - {k};
      }
      return None;
    }
  }

  class CloudOperatorService {
    const repository: MemoryOperatorRepository

    constructor (repository: MemoryOperatorRepository)
      ensures this.repository == repository
    {
      this.repository := repository;
    }

    /** A secret authenticates exactly the active operator of a usable key. */
    method Authenticate(secretHash: string, now: int) returns (principal: Option<Principal>)
      requires UniqueHashes(repository.View())
      ensures principal.None? <==> forall operator :: !Authenticates(repository.View(), secretHash, now, operator)
      ensures principal.Some? ==>
                && principal.value.operator.Some? && !principal.value.gateway && !principal.value.bootstrapAdmin
                && var (id, role) := principal.value.operator.value;
                && Authenticates(repository.View(), secretHash, now, id)
                && repository.operators[id].role == role && repository.operators[id].subject == principal.value.subject
    {
      var found := repository.OperatorByApiKeyHash(secretHash);
      if found.None? {
        return None;
      }
      var (id, k) := found.value;
      var (operator, key) := (repository.operators[id], repository.operatorKeys[k]);
      if key.expires.Some? && key.expires.value <= now {
        return None;
      }
      assert Authenticates(repository.View(), secretHash, now, id);
      return Some(Principal(operator.subject, false, false, Some((id, operator.role))));
    }

    method Authorize(actor: Principal, role: Role, subject: string) returns (r: Result<bool, Refusal>)
      ensures r == Operators.Authorize(repository.View(), actor, role, subject)
    {
      if IsAdmin(actor) {
        return Ok(false);
      }
      if !actor.gateway && !actor.bootstrapAdmin {
        return Err(Forbidden);
      }
      if |repository.operators| > 0 {
        return Err(BootstrapExhausted);
      }
      if role != PlatformAdmin {
        return Err(ValidationFailed);
      }
      if actor.bootstrapAdmin && !actor.gateway && subject != actor.subject {
        return Err(Forbidden);
      }
      return Ok(true);
    }

    method CreateOperator(actor: Principal, subject: string, email: Option<string>, role: Role, organizations: Option<seq<string>>,
                          expires: Option<int>, id: string, keyId: string, secretHash: string, now: int) returns (r: Option<Refusal>)
      modifies repository
      ensures (repository.View(), r)
              == Served(old(repository.View()),
                        Call.CreateOperator(actor, subject, email, role, organizations, expires, id, keyId, secretHash), now)
    {
      var authorized := Authorize(actor, role, Trim(subject));
      if authorized.Err? {
        return Some(authorized.error);
      }
      if Trim(subject) == "" || |Trim(subject)| > 200 {
        return Some(ValidationFailed);
      }
      var organizationIds := NormalizedOrganizations(organizations);
      if (role == OrgScoped) != organizationIds.Some? {
        return Some(ValidationFailed);
      }
      var address := NormalizedEmail(email);
      if (address.Some? && !ValidEmail(address.value)) || Expired(expires, now) {
        return Some(ValidationFailed);
      }
      var operator := Operator(Trim(subject), address, role, true, organizationIds);
      r := repository.CreateOperator(id, operator, keyId, NewKey(id, secretHash, expires, []), authorized.value);
    }

    method UpdateOperator(actor: Principal, id: string, active: bool, now: int) returns (r: Option<Refusal>)
      modifies repository
      ensures (repository.View(), r) == Served(old(repository.View()), Call.UpdateOperator(actor, id, active), now)
    {
      if !IsAdmin(actor) {
        return Some(Forbidden);
      }
      if id !in repository.operators {
        return Some(NotFound);
      }
      var existing := repository.operators[id];
      var guard := !active && existing.active && existing.role == PlatformAdmin;
      r := repository.UpdateOperator(id, active, guard);
    }

    method RotateOperatorKey(actor: Principal, id: string, rotated: string, overlap: Option<int>, expires: Option<int>,
                             keyId: string, secretHash: string, now: int) returns (r: Option<Refusal>)
      modifies repository
      ensures (repository.View(), r)
              == Served(old(repository.View()), Call.RotateKey(actor, id, rotated, overlap, expires, keyId, secretHash), now)
    {
      if !IsAdmin(actor) {
        return Some(Forbidden);
      }
      if id !in repository.operators {
        return Some(NotFound);
      }
      var overlapSeconds := if overlap.Some? then overlap.value else DEFAULT_ROTATION_OVERLAP_SECONDS;
      if overlapSeconds < 0 || overlapSeconds > MAX_ROTATION_OVERLAP_SECONDS || Expired(expires, now) {
        return Some(ValidationFailed);
      }
      if rotated !in repository.operatorKeys || repository.operatorKeys[rotated].operator != id {
        return Some(NotFound);
      }
      var existing := repository.operatorKeys[rotated];
      if !existing.active || existing.revokedAt.Some? || Expired(existing.expires, now) {
        return Some(KeyInactive);
      }
      if expires.Some? && existing.expires.Some? && expires.value > existing.expires.value {
        return Some(ValidationFailed);
      }
      var replacement := if expires.Some? then expires else existing.expires;
      var overlapExpiry := now + overlapSeconds * 1_000;
      var end := if existing.expires.Some? && existing.expires.value < overlapExpiry then existing.expires.value else overlapExpiry;
      r := repository.RotateOperatorApiKey(rotated, end, keyId, NewKey(id, secretHash, replacement, existing.lineage));
    }

    method RevokeOperatorKey(actor: Principal, id: string, revoked: string, now: int) returns (r: Option<Refusal>)
      modifies repository
      ensures (repository.View(), r) == Served(old(repository.View()), Call.RevokeKey(actor, id, revoked), now)
    {
      if !IsAdmin(actor) {
        return Some(Forbidden);
      }
      if id !in repository.operators || revoked !in repository.operatorKeys || repository.operatorKeys[revoked].operator != id {
        return Some(NotFound);
      }
      if repository.operatorKeys[revoked].active {
        repository.RevokeOperatorApiKey(revoked, now);
      }
      return None;
    }
  }
}
