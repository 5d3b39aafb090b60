/** Operators of the control plane and their API keys: what the service decides and what the repository writes. */
module Operators {
  import opened Prelude
  import opened Expiry
  import opened Sets
  import opened Text

  datatype Role = PlatformAdmin | OrgScoped

  datatype Operator = Operator(subject: string, email: Option<string>, role: Role, active: bool, organizations: Option<seq<string>>)

  /** `lineage` is a history field: the expiries granted along the chain of rotations that led to the key. */
  datatype Key = Key(operator: string, secretHash: string, active: bool, revokedAt: Option<int>, expires: Option<int>,
                     lineage: seq<Option<int>>)

  datatype Directory = Directory(operators: map<string, Operator>, keys: map<string, Key>)

  datatype Principal = Principal(subject: string, gateway: bool, bootstrapAdmin: bool, operator: Option<(string, Role)>)

  datatype Refusal = Forbidden | BootstrapExhausted | ValidationFailed | NotFound | KeyInactive | Conflict | Lockout

  predicate IsActiveAdmin(d: Directory, id: string) {
    id in d.operators && d.operators[id].active && d.operators[id].role.PlatformAdmin?
  }

  function ActiveAdmins(d: Directory): set<string> {
    set id | id in d.operators && IsActiveAdmin(d, id)
  }

  /** What a call fixes when it reads the directory, for the repository to write later. */
  datatype Write =
    | AddOperator(id: string, operator: Operator, keyId: string, key: Key, bootstrap: bool)
    | SetActive(id: string, active: bool, guard: bool)
    | AddKey(keyId: string, key: Key)
    | Replace(replaced: string, end: int, keyId: string, key: Key)
    | Revoke(revoked: string, at: int)
    | Nothing

  datatype Call =
    | CreateOperator(actor: Principal, subject: string, email: Option<string>, role: Role, organizations: Option<seq<string>>,
                     expires: Option<int>, id: string, keyId: string, secretHash: string)
    | UpdateOperator(actor: Principal, id: string, active: bool)
    | CreateKey(actor: Principal, id: string, expires: Option<int>, keyId: string, secretHash: string)
    | RotateKey(actor: Principal, id: string, rotated: string, overlap: Option<int>, expires: Option<int>,
                keyId: string, secretHash: string)
    | RevokeKey(actor: Principal, id: string, revoked: string)

  predicate IsAdmin(actor: Principal) {
    actor.operator.Some? && actor.operator.value.1.PlatformAdmin?
  }

  /** Whether an actor may create an operator, and whether that is a bootstrap. */
  function Authorize(d: Directory, actor: Principal, role: Role, subject: string): Result<bool, Refusal> {
    if IsAdmin(actor) then Ok(false)
    else if !actor.gateway && !actor.bootstrapAdmin then Err(Forbidden)
    else if d.operators != map[] then Err(BootstrapExhausted)
    else if !role.PlatformAdmin? then Err(ValidationFailed)
    else if actor.bootstrapAdmin && !actor.gateway && subject != actor.subject then Err(Forbidden)
    else Ok(true)
  }

  function Normalized(ids: seq<string>): (r: seq<string>)
    ensures forall i, j :: 0 <= i < j < |r| ==> r[i] != r[j]
    ensures forall id :: id in r <==> id != "" && exists raw :: raw in ids && Trim(raw) == id
  {
    if ids == [] then []
    else
      var (rest, last) := (Normalized(ids[..|ids| - 1]), Trim(ids[|ids| - 1]));
      assert forall raw :: raw in ids <==> raw in ids[..|ids| - 1] || raw == ids[|ids| - 1];
      if last == "" || last in rest then rest else rest + [last]
  }

  /** They keep the order in which they come first. */
  lemma NormalizedInOrder(ids: seq<string>, more: seq<string>)
    ensures Normalized(ids) <= Normalized(ids + more)
  {
    if more == [] {
      assert ids + more == ids;
    } else {
      NormalizedInOrder(ids, more[..|more| - 1]);
      assert (ids + more)[..|ids + more| - 1] == ids + more[..|more| - 1];
    }
  }

  /** Only ids that are not blank count; a list without any is no list. */
  function NormalizedOrganizations(input: Option<seq<string>>): Option<seq<string>> {
    if input.Some? && Normalized(input.value) != [] then Some(Normalized(input.value)) else None
  }

  /** Lower case of the letters A to Z. */
  function Lowered(s: string): (r: string)
    ensures |r| == |s|
    ensures forall i :: 0 <= i < |s| ==> r[i] as int == s[i] as int + if 65 <= s[i] as int <= 90 then 32 else 0
  {
    seq(|s|, i requires 0 <= i < |s| => if 'A' <= s[i] <= 'Z' then s[i] - 'A' + 'a' else s[i])
  }

  /** A blank address is none. */
  function NormalizedEmail(email: Option<string>): Option<string> {
    if email.Some? && Trim(email.value) != "" then Some(Lowered(Trim(email.value))) else None
  }

  /** One `@` with something before it, after it a dot with something on both sides, and no blanks. */
  predicate ValidEmail(email: string) {
    && (forall i :: 0 <= i < |email| ==> !IsSpace(email[i]))
    && exists at, dot :: 0 < at < at + 1 < dot < |email| - 1 && email[at] == '@' && email[dot] == '.'
                         && Free(email[..at], '@') && Free(email[at + 1..], '@')
  }

  predicate Part(s: string) {
    s != "" && Free(s, '@') && forall i :: 0 <= i < |s| ==> !IsSpace(s[i])
  }

  predicate MadeOf(email: string, local: string, host: string, rest: string) {
    Part(local) && Part(host) && Part(rest) && email == local + "@" + (host + "." + rest)
  }

  lemma AddressOfParts(email: string, local: string, host: string, rest: string)
    requires MadeOf(email, local, host, rest)
    ensures ValidEmail(email)
  {
    var (at, dot) := (|local|, |local| + 1 + |host|);
    assert email[..at] == local && email[at + 1..] == host + "." + rest;
    assert email[at] == '@' && email[dot] == '.';
  }

  lemma OneAt(email: string, at: nat, k: nat)
    requires at < |email| && k < |email| && k != at && Free(email[..at], '@') && Free(email[at + 1..], '@')
    ensures email[k] != '@'
  {
    if k < at {
      assert email[..at][k] == email[k];
    } else {
      assert email[at + 1..][k - at - 1] == email[k];
    }
  }

  /** No blanks, and no at sign but this one. */
  ghost predicate Clean(email: string, at: nat) {
    forall k :: 0 <= k < |email| ==> !IsSpace(email[k]) && (k != at ==> email[k] != '@')
  }

  lemma PartOfText(email: string, at: nat, i: nat, j: nat)
    requires Clean(email, at) && i < j <= |email| && (j <= at || at < i)
    ensures Part(email[i..j])
  {
    forall k | 0 <= k < j - i ensures email[i..j][k] != '@' && !IsSpace(email[i..j][k]) {
      assert email[i..j][k] == email[i + k];
    }
  }

  lemma CutInThree(email: string, at: nat, dot: nat)
    requires at < dot < |email| && email[at] == '@' && email[dot] == '.'
    ensures email == email[0..at] + "@" + (email[at + 1..dot] + "." + email[dot + 1..|email|])
  {
  }

  lemma PartsAt(email: string, at: nat, dot: nat)
    requires Clean(email, at) && 0 < at < at + 1 < dot < |email| - 1 && email[at] == '@' && email[dot] == '.'
    ensures MadeOf(email, email[0..at], email[at + 1..dot], email[dot + 1..|email|])
  {
    PartOfText(email, at, 0, at);
    PartOfText(email, at, at + 1, dot);
    PartOfText(email, at, dot + 1, |email|);
    CutInThree(email, at, dot);
  }

  lemma PartsOfAddress(email: string) returns (local: string, host: string, rest: string)
    requires ValidEmail(email)
    ensures MadeOf(email, local, host, rest)
  {
    var at, dot :| 0 < at < at + 1 < dot < |email| - 1 && email[at] == '@' && email[dot] == '.'
                   && Free(email[..at], '@') && Free(email[at + 1..], '@');
    forall k | 0 <= k < |email| && k != at ensures email[k] != '@' {
      OneAt(email, at, k);
    }
    PartsAt(email, at, dot);
    local, host, rest := email[0..at], email[at + 1..dot], email[dot + 1..|email|];
  }

  /** An address is a local part, an at sign, and a domain with a dot inside. */
  lemma AddressesAreParts(email: string)
    ensures ValidEmail(email) <==> exists local, host, rest :: MadeOf(email, local, host, rest)
  {
    if ValidEmail(email) {
      var local, host, rest := PartsOfAddress(email);
    }
    if local, host, rest :| MadeOf(email, local, host, rest) {
      AddressOfParts(email, local, host, rest);
    }
  }

  predicate FutureExpiry(expires: Option<int>, now: int) {
    !Expired(expires, now)
  }

  function NewKey(operator: string, secretHash: string, expires: Option<int>, before: seq<Option<int>>): Key {
    Key(operator, secretHash, true, None, expires, before + [expires])
  }

  predicate Usable(key: Key, now: int) {
    key.active && key.revokedAt.None? && !Expired(key.expires, now)
  }

  function DecideCreate(d: Directory, call: Call, now: int): Result<Write, Refusal>
    requires call.CreateOperator?
  {
    var subject := Trim(call.subject);
    var (organizations, email) := (NormalizedOrganizations(call.organizations), NormalizedEmail(call.email));
    match Authorize(d, call.actor, call.role, subject)
    case Err(refusal) => Err(refusal)
    case Ok(bootstrap) =>
      if subject == "" || |subject| > 200 || call.role.OrgScoped? != organizations.Some? then Err(ValidationFailed)
      else if (email.Some? && !ValidEmail(email.value)) || !FutureExpiry(call.expires, now) then Err(ValidationFailed)
      else Ok(AddOperator(call.id, Operator(subject, email, call.role, true, organizations),
                          call.keyId, NewKey(call.id, call.secretHash, call.expires, []), bootstrap))
  }

  function DecideRotate(d: Directory, call: Call, now: int): Result<Write, Refusal>
    requires call.RotateKey?
  {
    var overlap := if call.overlap.Some? then call.overlap.value else DEFAULT_ROTATION_OVERLAP_SECONDS;
    if !ValidOverlap(overlap) || !FutureExpiry(call.expires, now) then Err(ValidationFailed)
    else if call.rotated !in d.keys || d.keys[call.rotated].operator != call.id then Err(NotFound)
    else
      var existing := d.keys[call.rotated];
      if !Usable(existing, now) then Err(KeyInactive)
      else if Extends(existing.expires, call.expires) then Err(ValidationFailed)
      else Ok(Replace(call.rotated, ReplacedExpiry(existing.expires, now, overlap), call.keyId,
                      NewKey(call.id, call.secretHash, ReplacementExpiry(existing.expires, call.expires), existing.lineage)))
  }

  /** The reads of a call: it is refused, or it knows what to write. */
  function Decide(d: Directory, call: Call, now: int): Result<Write, Refusal> {
    if call.CreateOperator? then DecideCreate(d, call, now)
    else if !IsAdmin(call.actor) then Err(Forbidden)
    else if call.id !in d.operators then Err(NotFound)
    else match call
         case UpdateOperator(_, id, active) => Ok(SetActive(id, active, !active && IsActiveAdmin(d, id)))
         case CreateKey(_, id, expires, keyId, hash) =>
           if !FutureExpiry(expires, now) then Err(ValidationFailed) else Ok(AddKey(keyId, NewKey(id, hash, expires, [])))
         case RotateKey(_, _, _, _, _, _, _) => DecideRotate(d, call, now)
         case RevokeKey(_, id, revoked) =>
           if revoked !in d.keys || d.keys[revoked].operator != id then Err(NotFound)
           else if !d.keys[revoked].active then Ok(Nothing)
           else Ok(Revoke(revoked, now))
  }

  predicate SubjectTaken(operators: map<string, Operator>, subject: string) {
    exists id :: id in operators && operators[id].subject == subject
  }

  /** The repository's atomic write. */
  function Commit(d: Directory, write: Write): Result<Directory, Refusal> {
    match write
    case AddOperator(id, operator, keyId, key, bootstrap) =>
      if (bootstrap && d.operators != map[]) || SubjectTaken(d.operators, operator.subject) || id in d.operators then Err(Conflict)
      else Ok(Directory(d.operators[id := operator], d.keys[keyId := key]))
    case SetActive(id, active, guard) =>
      if id !in d.operators then Err(NotFound)
      else if guard && !active && |ActiveAdmins(d)| <= 1 && IsActiveAdmin(d, id) then Err(Lockout)
      else Ok(d.(operators := d.operators[id := d.operators[id].(active := active)]))
    case AddKey(keyId, key) => Ok(d.(keys := d.keys[keyId := key]))
    case Replace(replaced, end, keyId, key) =>
      if replaced !in d.keys then Err(NotFound)
      else Ok(d.(keys := d.keys[replaced := d.keys[replaced].(expires := Some(end))][keyId := key]))
    case Revoke(revoked, at) =>
      if revoked !in d.keys then Ok(d)
      else Ok(d.(keys := d.keys[revoked := d.keys[revoked].(active := false, revokedAt := Some(at))]))
    case Nothing => Ok(d)
  }

  /** A presented secret is known by its hash. */
  ghost predicate Authenticates(d: Directory, secretHash: string, now: int, operator: string) {
    exists k :: k in d.keys && d.keys[k].secretHash == secretHash && d.keys[k].operator == operator
                && Usable(d.keys[k], now) && operator in d.operators && d.operators[operator].active
  }

  ghost predicate UniqueHashes(d: Directory) {
    forall k, l :: k in d.keys && l in d.keys && k != l ==> d.keys[k].secretHash != d.keys[l].secretHash
  }

  /** A call that nothing interrupts: it reads, decides and writes. */
  function Served(d: Directory, call: Call, now: int): (Directory, Option<Refusal>) {
    match Decide(d, call, now)
    case Err(refusal) => (d, Some(refusal))
    case Ok(write) => Committed(d, write)
  }

  function Committed(d: Directory, write: Write): (Directory, Option<Refusal>) {
    match Commit(d, write)
    case Err(refusal) => (d, Some(refusal))
    case Ok(after) => (after, None)
  }

  // ---------- what a call does, told of its own fields ----------

  /** The actor is an operator that administers the platform. */
  predicate Administers(actor: Principal) {
    actor.operator.Some? && actor.operator.value.1 == PlatformAdmin
  }

  /** Who may create an operator: an administrator, and before there is any operator the gateway or an admitted subject, for itself. */
  predicate MayCreate(d: Directory, actor: Principal, role: Role, subject: string) {
    || Administers(actor)
    || (&& (actor.gateway || actor.bootstrapAdmin) && d.operators == map[] && role == PlatformAdmin
        && (actor.gateway || subject == actor.subject))
  }

  /** What is asked for can be an operator: organizations exactly for the org-scoped, an address only if it is one, a key that lives. */
  predicate Proper(call: Call, now: int)
    requires call.CreateOperator?
  {
    && 1 <= |Trim(call.subject)| <= 200
    && (call.role == OrgScoped <==> call.organizations.Some? && exists raw :: raw in call.organizations.value && Trim(raw) != "")
    && (call.email.Some? && Trim(call.email.value) != "" ==> ValidEmail(Lowered(Trim(call.email.value))))
    && (call.expires.Some? ==> now < call.expires.value)
  }

  lemma OrganizationsCount(input: Option<seq<string>>)
    ensures NormalizedOrganizations(input).Some? <==> input.Some? && exists raw :: raw in input.value && Trim(raw) != ""
  {
    if input.Some? {
      var ids := Normalized(input.value);
      if ids != [] {
        assert ids[0] in ids;
      }
      if raw :| raw in input.value && Trim(raw) != "" {
        assert Trim(raw) in ids;
      }
    }
  }

  /** An operator is created exactly when the actor may, the request is proper, and id and subject are free. */
  lemma CreatedExactly(d: Directory, call: Call, now: int)
    requires call.CreateOperator?
    ensures var (after, refusal) := Served(d, call, now);
            && (refusal.None? <==>
                  && MayCreate(d, call.actor, call.role, Trim(call.subject)) && Proper(call, now)
                  && call.id !in d.operators && forall id :: id in d.operators ==> d.operators[id].subject != Trim(call.subject))
            && (refusal.Some? ==> after == d)
  {
    OrganizationsCount(call.organizations);
  }

  /** And it is what was asked for, with the one key that was asked for; every other operator and key stays. */
  lemma CreatedAsAsked(d: Directory, call: Call, now: int)
    requires call.CreateOperator? && Served(d, call, now).1.None?
    ensures var (after, created) := (Served(d, call, now).0, Served(d, call, now).0.operators);
            && created.Keys == d.operators.Keys + {call.id} && (forall id :: id in d.operators ==> created[id] == d.operators[id])
            && created[call.id].role == call.role && created[call.id].subject == Trim(call.subject) && created[call.id].active
            && (created[call.id].organizations.Some? <==> call.role == OrgScoped)
            && (call.role == OrgScoped ==> created[call.id].organizations == Some(Normalized(call.organizations.value)))
            && created[call.id].email
               == (if call.email.Some? && Trim(call.email.value) != "" then Some(Lowered(Trim(call.email.value))) else None)
            && after.keys == d.keys[call.keyId := Key(call.id, call.secretHash, true, None, call.expires, [call.expires])]
            && ActiveAdmins(after) == ActiveAdmins(d) + (if call.role == PlatformAdmin then {call.id} else {})
  {
    OrganizationsCount(call.organizations);
    var after := Served(d, call, now).0;
    assert [] + [call.expires] == [call.expires];
    assert forall id :: id in ActiveAdmins(after) <==> id in ActiveAdmins(d) || (id == call.id && call.role == PlatformAdmin);
  }

  /** An operator is switched on or off exactly when an administrator asks and it is not the last active one that goes. */
  lemma UpdatedExactly(d: Directory, call: Call, now: int)
    requires call.UpdateOperator?
    ensures var (after, refusal) := Served(d, call, now);
            && (refusal.None? <==>
                  && Administers(call.actor) && call.id in d.operators
                  && !(!call.active && ActiveAdmins(d) == {call.id}))
            && (refusal.Some? ==> after == d)
            && (refusal.None? ==>
                  after == d.(operators := d.operators[call.id := d.operators[call.id].(active := call.active)]))
  {
    if call.id in d.operators && IsActiveAdmin(d, call.id) && |ActiveAdmins(d)| <= 1 {
      OnlyOne(ActiveAdmins(d), call.id);
    }
    if ActiveAdmins(d) == {call.id} {
      assert call.id in ActiveAdmins(d);
    }
  }

  /** Its place among the active platform admins follows. */
  lemma SwitchingMovesOneAdmin(d: Directory, id: string, active: bool)
    requires id in d.operators
    ensures ActiveAdmins(d.(operators := d.operators[id := d.operators[id].(active := active)]))
            == if active && d.operators[id].role == PlatformAdmin then ActiveAdmins(d) + {id}
               else if active then ActiveAdmins(d) else ActiveAdmins(d) - {id}
  {
  }

  lemma OnlyOne(ids: set<string>, id: string)
    requires id in ids && |ids| <= 1
    ensures ids == {id}
  {
    forall other | other in ids ensures other == id {
      SubsetSize({id, other}, ids);
      assert other != id ==> |{id, other}| == 2;
    }
  }

  /** A key is added for an existing operator, as asked. */
  lemma KeyCreatedExactly(d: Directory, call: Call, now: int)
    requires call.CreateKey?
    ensures var (after, refusal) := Served(d, call, now);
            && (refusal.None? <==>
                  Administers(call.actor) && call.id in d.operators && (call.expires.Some? ==> now < call.expires.value))
            && after.operators == d.operators
            && after.keys == if refusal.Some? then d.keys
                             else d.keys[call.keyId := Key(call.id, call.secretHash, true, None, call.expires, [call.expires])]
  {
    assert [] + [call.expires] == [call.expires];
  }

  /** What has to hold for a rotation, said of the request and of the key it names. */
  predicate Rotatable(d: Directory, call: Call, now: int)
    requires call.RotateKey?
  {
    && Administers(call.actor) && call.id in d.operators
    && (call.overlap.Some? ==> 0 <= call.overlap.value <= 604_800) && (call.expires.Some? ==> now < call.expires.value)
    && call.rotated in d.keys && d.keys[call.rotated].operator == call.id
    && d.keys[call.rotated].active && d.keys[call.rotated].revokedAt.None?
    && (d.keys[call.rotated].expires.Some? ==> now < d.keys[call.rotated].expires.value)
    && (call.expires.Some? && d.keys[call.rotated].expires.Some? ==> call.expires.value <= d.keys[call.rotated].expires.value)
  }

  /**
   A key is rotated exactly then: the new key is the operator's, with the secret asked for and the
   expiry asked for or else the old key's, and the old key ends with the overlap, a day by default,
   or at its own expiry if that is earlier.
   */
  lemma RotatedExactly(d: Directory, call: Call, now: int)
    requires call.RotateKey? && call.keyId !in d.keys
    ensures var (after, refusal) := Served(d, call, now);
            && (refusal.None? <==> Rotatable(d, call, now)) && after.operators == d.operators && (refusal.Some? ==> after == d)
            && (refusal.None? ==>
                  var rotated := d.keys[call.rotated];
                  var overlapEnd := now + (if call.overlap.Some? then call.overlap.value else 86_400) * 1_000;
                  var expires := if call.expires.Some? then call.expires else rotated.expires;
                  && after.keys.Keys == d.keys.Keys + {call.keyId}
                  && (forall k :: k in d.keys && k != call.rotated ==> after.keys[k] == d.keys[k])
                  && after.keys[call.rotated]
                     == rotated.(expires := if rotated.expires.Some? && rotated.expires.value < overlapEnd then rotated.expires
                                            else Some(overlapEnd))
                  && after.keys[call.keyId] == Key(call.id, call.secretHash, true, None, expires, rotated.lineage + [expires]))
  {
  }

  /** An active key of the operator is revoked, and with an inactive one nothing changes. */
  lemma RevokedExactly(d: Directory, call: Call, now: int)
    requires call.RevokeKey?
    ensures var (after, refusal) := Served(d, call, now);
            && (refusal.None? <==>
                  && Administers(call.actor) && call.id in d.operators
                  && call.revoked in d.keys && d.keys[call.revoked].operator == call.id)
            && after.operators == d.operators
            && after.keys == if refusal.None? && d.keys[call.revoked].active
                             then d.keys[call.revoked := d.keys[call.revoked].(active := false, revokedAt := Some(now))] else d.keys
  {
  }
}
