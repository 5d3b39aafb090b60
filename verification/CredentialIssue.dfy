/** The credential service as an object: one issuance at a time, and how that is a run of the protocol. */
module ManagedCredentials {
  import opened Prelude
  import opened Text
  import opened Handoffs
  import opened CredentialStore
  import opened CredentialService

  datatype KeyError = KeyRequired | KeyInvalid

  predicate IsKeyCharacter(c: char) {
    'A' <= c <= 'Z' || 'a' <= c <= 'z' || '0' <= c <= '9' || c == '.' || c == '_' || c == ':' || c == '-'
  }

  function AssertIdempotencyKey(value: Option<string>): (r: Result<string, KeyError>)
    ensures r.Ok? <==> value.Some? && 1 <= |Trim(value.value)| <= 255 && forall c :: c in Trim(value.value) ==> IsKeyCharacter(c)
    ensures r.Ok? ==> r.value == Trim(value.value)
    ensures r == Err(KeyRequired) <==> value.None? || Trim(value.value) == ""
  {
    var key := if value.Some? then Trim(value.value) else "";
    if key == "" then Err(KeyRequired)
    else if |key| > 255 || exists c :: c in key && !IsKeyCharacter(c) then Err(KeyInvalid)
    else Ok(key)
  }

  /** What the world outside answers during one issuance; the issuer is told the subject and the overlap. */
  datatype World = World(id: string, revocationAccepted: bool, issue: (string, Option<int>) -> Result<Credential, string>, iv: string,
                         now: int)

  function Fresh(request: Request, world: World): Record {
    NewRecord(request, world.id, world.now)
  }

  function Sealed(r: Record, handoff: Handoff, key: EncryptionKey, iv: string): Record {
    Completed(WithIssuedKey(r, handoff.credential.apiKeyId), handoff.credential.apiKeyId, handoff.credential.replacedExpires,
              Encrypt(handoff, key, r.id, iv), handoff.issuedAt + HANDOFF_RETENTION_MS, handoff.issuedAt)
  }

  function Minted(records: Records, id: string, key: EncryptionKey, overlap: Option<int>, world: World): (Records, Outcome)
    requires id in records && records[id].id == id
  {
    match world.issue(records[id].actor, overlap)
    case Err(message) => (records[id := WithFailure(records[id], message, world.now)], Rejected(IssuerFailed))
    case Ok(credential) =>
      var handoff := Handoff(credential, world.now);
      (records[id := Sealed(records[id], handoff, key, world.iv)], Delivered(id, handoff))
  }

  /** One issuance that nothing interrupts, from the records before to the records after. */
  ghost function Uninterrupted(records: Records, key: EncryptionKey, request: Request, world: World): (Records, Outcome)
    requires WellFormed(records)
  {
    if !Owned(records, request.environment, request.idempotencyKey) then
      Minted(records[world.id := Fresh(request, world)], world.id, key, request.overlap, world)
    else
      var id := OwnerOf(records, request);
      var r := records[id];
      if r.fingerprint != FingerprintOf(request) then (records, Rejected(IdempotencyConflict))
      else if r.state.Issued? then (records, ReplayOf(r, key, world.now))
      else if r.issuedKey.Some? && !world.revocationAccepted then (records, Rejected(RevocationFailed))
      else Minted(records[id := Reopened(r)], id, key, Some(0), world)
  }

  /** An issuer answers with credentials of the environment it was asked for. */
  ghost predicate AnswersFor(world: World, environment: string) {
    forall subject: string, overlap: Option<int> ::
      world.issue(subject, overlap).Ok? ==> world.issue(subject, overlap).value.environment == environment
  }

  class ManagedCredentialService {
    const store: MemoryCredentialOperationStore
    const key: EncryptionKey

    constructor (store: MemoryCredentialOperationStore, key: EncryptionKey)
      ensures this.store == store && this.key == key
    {
      this.store, this.key := store, key;
    }

    method Issue(environment: string, rawKey: Option<string>, kind: Kind, subject: string, overlap: Option<int>, world: World)
      returns (r: Result<Outcome, KeyError>)
      requires store.Valid() && world.id !in store.records
      modifies store
      ensures store.Valid()
      ensures var asserted := AssertIdempotencyKey(rawKey);
              if asserted.Err? then r == Err(asserted.error) && store.records == old(store.records)
              else var (after, outcome) := Uninterrupted(old(store.records), key,
                                                         Request(environment, asserted.value, kind, overlap, subject), world);
                   store.records == after && r == Ok(outcome)
    {
      var idempotencyKey := AssertIdempotencyKey(rawKey);
      if idempotencyKey.Err? {
        return Err(idempotencyKey.error);
      }
      var request := Request(environment, idempotencyKey.value, kind, overlap, subject);
      var outcome := IssueExclusive(request, world);
      return Ok(outcome);
    }

    method IssueExclusive(request: Request, world: World) returns (outcome: Outcome)
      requires store.Valid() && world.id !in store.records
      modifies store
      ensures store.Valid() && (store.records, outcome) == Uninterrupted(old(store.records), key, request, world)
    {
      var claimed, record := store.Claim(Fresh(request, world));
      if claimed {
        outcome := Mint(world.id, request.subject, request.overlap, world);
        return;
      }
      ghost var owner := OwnerOf(store.records, request);
      assert IsOwner(store.records, owner, request) && SameRequest(store.records[owner], record);
      if record.fingerprint != FingerprintOf(request) {
        return Rejected(IdempotencyConflict);
      }
      if record.state == Issued {
        return ReplayOf(record, key, world.now);
      }
      outcome := Recover(record, world);
    }

    method Recover(record: Record, world: World) returns (outcome: Outcome)
      requires store.Valid() && record.id in store.records && store.records[record.id] == record
      modifies store
      ensures store.Valid()
      ensures (store.records, outcome) ==
              if record.issuedKey.Some? && !world.revocationAccepted then (old(store.records), Rejected(RevocationFailed))
              else Minted(old(store.records)[record.id := Reopened(record)], record.id, key, Some(0), world)
    {
      if record.issuedKey.Some? && !world.revocationAccepted {
        return Rejected(RevocationFailed);
      }
      var _ := store.Reopen(record.id);
      outcome := Mint(record.id, record.actor, Some(0), world);
    }

    method Mint(id: string, subject: string, overlap: Option<int>, world: World) returns (outcome: Outcome)
      requires store.Valid() && id in store.records && store.records[id].id == id && store.records[id].actor == subject
      modifies store
      ensures store.Valid() && (store.records, outcome) == Minted(old(store.records), id, key, overlap, world)
    {
      match world.issue(subject, overlap)
      case Err(message) =>
        var _ := store.Fail(id, message, world.now);
        return Rejected(IssuerFailed);
      case Ok(issued) =>
        var _ := store.RecordIssuedKey(id, issued.apiKeyId);
        var handoff := Handoff(issued, world.now);
        var _ := store.Complete(id, issued.apiKeyId, issued.replacedExpires, Encrypt(handoff, key, id, world.iv),
                                world.now + HANDOFF_RETENTION_MS, world.now);
        assert store.records == old(store.records)[id := Sealed(old(store.records)[id], handoff, key, world.iv)];
        return Delivered(id, handoff);
    }
  }

  // ---------- what one issuance does, told of the fields ----------

  /** A record that was minted for: what the call asked for stays, and it tells how the issuer answered. */
  ghost predicate TellsTheAnswer(before: Record, after: Record, answer: Result<Credential, string>, key: EncryptionKey, now: int) {
    && after.id == before.id && after.environment == before.environment && after.idempotencyKey == before.idempotencyKey
    && after.fingerprint == before.fingerprint && after.actor == before.actor && after.createdAt == before.createdAt
    && after.completedAt == Some(now)
    && match answer
       case Err(message) => after.state.Failed? && after.lastError == Some(message) && after.issuedKey.None?
       case Ok(c) =>
         && after.state.Issued? && after.lastError.None? && after.issuedKey == Some(c.apiKeyId)
         && after.replacedExpires == (if c.replacedExpires.Some? then c.replacedExpires else before.replacedExpires)
         // The handoff is kept for a day.
         && after.handoffExpires == Some(now + 86_400_000) && after.envelope.Some?
         && Decrypt(after.envelope.value, key, after.environment, after.id) == Ok(Handoff(c, now))
  }

  /** What the caller is answered with after a mint. */
  function AnswerOf(id: string, answer: Result<Credential, string>, now: int): Outcome {
    match answer
    case Err(_) => Rejected(IssuerFailed)
    case Ok(c) => Delivered(id, Handoff(c, now))
  }

  /** A new idempotency key: one record more, which says what was asked for, and the issuer's answer with the overlap asked for. */
  lemma FirstRequestIsMinted(records: Records, key: EncryptionKey, request: Request, world: World)
    requires WellFormed(records) && world.id !in records && AnswersFor(world, request.environment)
    requires forall id :: id in records ==>
               records[id].environment != request.environment || records[id].idempotencyKey != request.idempotencyKey
    ensures var (after, outcome) := Uninterrupted(records, key, request, world);
            var answer := world.issue(request.subject, request.overlap);
            && after.Keys == records.Keys + {world.id} && (forall id :: id in records ==> after[id] == records[id])
            && after[world.id].environment == request.environment && after[world.id].idempotencyKey == request.idempotencyKey
            && after[world.id].fingerprint.environment == request.environment && after[world.id].fingerprint.kind == request.kind
            && after[world.id].fingerprint.overlap == request.overlap && after[world.id].actor == request.subject
            && after[world.id].createdAt == world.now
            && after[world.id].replacedExpires == (if answer.Ok? then answer.value.replacedExpires else None)
            && (answer.Err? ==> after[world.id].envelope.None?)
            && TellsTheAnswer(after[world.id], after[world.id], answer, key, world.now)
            && outcome == AnswerOf(world.id, answer, world.now)
  {
    assert !Owned(records, request.environment, request.idempotencyKey);
  }

  /**
   A known idempotency key: refused when kind or overlap differ; replayed while the handoff is kept
   if it was issued; otherwise minted again with zero overlap, unless a recorded key cannot be revoked.
   */
  lemma KnownRequestIsAnswered(records: Records, key: EncryptionKey, request: Request, world: World, id: string)
    requires WellFormed(records) && world.id !in records && AnswersFor(world, request.environment)
    requires id in records && records[id].environment == request.environment && records[id].idempotencyKey == request.idempotencyKey
    requires records[id].fingerprint.environment == request.environment
    ensures var (r, (after, outcome)) := (records[id], Uninterrupted(records, key, request, world));
            var answer := world.issue(r.actor, Some(0));
            if r.fingerprint.kind != request.kind || r.fingerprint.overlap != request.overlap then
              after == records && outcome == Rejected(IdempotencyConflict)
            else if r.state.Issued? then
              && after == records
              && (outcome.Delivered? <==> r.envelope.Some? && r.handoffExpires.Some? && world.now < r.handoffExpires.value
                                          && Decrypt(r.envelope.value, key, r.environment, id).Ok?)
              && (outcome.Delivered? ==> outcome.operation == id && Decrypt(r.envelope.value, key, r.environment, id) == Ok(outcome.handoff))
              && (outcome.Rejected? ==> outcome == Rejected(HandoffExpired))
            else if r.issuedKey.Some? && !world.revocationAccepted then after == records && outcome == Rejected(RevocationFailed)
            else
              && after.Keys == records.Keys && (forall other :: other in records && other != id ==> after[other] == records[other])
              && TellsTheAnswer(r, after[id], answer, key, world.now) && outcome == AnswerOf(id, answer, world.now)
  {
    assert IsOwner(records, id, request);
    var owner := OwnerOf(records, request);
    assert IsOwner(records, owner, request) && SameRequest(records[owner], records[id]);
  }

  // ---------- asking again ----------

  lemma MintedKeepsRecords(records: Records, id: string, key: EncryptionKey, overlap: Option<int>, world: World)
    requires WellFormed(records) && id in records
    ensures var after := Minted(records, id, key, overlap, world).0;
            && WellFormed(after) && after.Keys == records.Keys && SameRequest(after[id], records[id])
            && after[id].fingerprint == records[id].fingerprint
  {
    var after := Minted(records, id, key, overlap, world).0;
    assert after == records[id := after[id]];
    RewrittenRecord(records, id, after[id]);
  }

  lemma RewrittenRecord(records: Records, id: string, r: Record)
    requires WellFormed(records) && id in records && r.id == id && SameRequest(r, records[id])
    ensures WellFormed(records[id := r])
  {
    assert forall a :: a in records ==> SameRequest(records[id := r][a], records[a]);
  }

  lemma UninterruptedKeepsRecords(records: Records, key: EncryptionKey, request: Request, world: World)
    requires WellFormed(records) && world.id !in records
    ensures WellFormed(Uninterrupted(records, key, request, world).0)
  {
    if !Owned(records, request.environment, request.idempotencyKey) {
      var claimed := records[world.id := Fresh(request, world)];
      forall a, b | a in claimed && b in claimed && SameRequest(claimed[a], claimed[b]) ensures a == b {
        assert a != world.id ==> !Owns(records, a, request.environment, request.idempotencyKey);
        assert b != world.id ==> !Owns(records, b, request.environment, request.idempotencyKey);
      }
      MintedKeepsRecords(claimed, world.id, key, request.overlap, world);
    } else {
      var id := OwnerOf(records, request);
      assert IsOwner(records, id, request);
      MintedKeepsRecords(records[id := Reopened(records[id])], id, key, Some(0), world);
    }
  }

  /** A minted credential is sealed in its record, where the service itself can open it. */
  lemma MintedOpens(records: Records, id: string, key: EncryptionKey, overlap: Option<int>, world: World)
    requires id in records && records[id].id == id
    requires var answer := world.issue(records[id].actor, overlap);
             answer.Ok? && answer.value.environment == records[id].environment
    ensures var r := Minted(records, id, key, overlap, world).0[id];
            && r.state.Issued? && r.handoffExpires == Some(world.now + HANDOFF_RETENTION_MS)
            && ReplayOf(r, key, world.now) == Delivered(id, Handoff(world.issue(records[id].actor, overlap).value, world.now))
  {
  }

  /** A delivery leaves the record that owns the request issued, with a handoff that replays as that delivery. */
  lemma DeliveredIsKept(records: Records, key: EncryptionKey, request: Request, world: World)
    requires WellFormed(records) && world.id !in records
    requires AnswersFor(world, request.environment)
    requires Uninterrupted(records, key, request, world).1.Delivered?
    ensures var (after, outcome) := Uninterrupted(records, key, request, world);
            && WellFormed(after) && Owned(after, request.environment, request.idempotencyKey)
            && var r := after[OwnerOf(after, request)];
            && r.state.Issued? && r.fingerprint == FingerprintOf(request) && ReplayOf(r, key, world.now) == outcome
  {
    UninterruptedKeepsRecords(records, key, request, world);
    var (after, outcome) := Uninterrupted(records, key, request, world);
    if !Owned(records, request.environment, request.idempotencyKey) {
      var claimed := records[world.id := Fresh(request, world)];
      MintedOpens(claimed, world.id, key, request.overlap, world);
      assert IsOwner(after, world.id, request);
      assert IsOwner(after, OwnerOf(after, request), request);
      assert SameRequest(after[world.id], after[OwnerOf(after, request)]);
    } else {
      var id := OwnerOf(records, request);
      assert IsOwner(records, id, request);
      if !records[id].state.Issued? {
        MintedOpens(records[id := Reopened(records[id])], id, key, Some(0), world);
      }
      assert IsOwner(after, id, request);
      assert IsOwner(after, OwnerOf(after, request), request);
      assert SameRequest(after[id], after[OwnerOf(after, request)]);
    }
  }

  /**
   Asking again with the same key changes nothing: another kind or another overlap is refused, and
   the same request is answered with the same handoff until that expires.
   */
  lemma AskingAgain(records: Records, key: EncryptionKey, request: Request, first: World, again: Request, second: World)
    requires WellFormed(records) && first.id !in records
    requires AnswersFor(first, request.environment)
    requires Uninterrupted(records, key, request, first).1.Delivered?
    requires again.environment == request.environment && again.idempotencyKey == request.idempotencyKey
    ensures var (after, outcome) := Uninterrupted(records, key, request, first);
            && WellFormed(after) && Owned(after, request.environment, request.idempotencyKey)
            && var expires := after[OwnerOf(after, request)].handoffExpires;
            && expires.Some? && first.now < expires.value
            && Uninterrupted(after, key, again, second)
               == (after, if again.kind != request.kind || again.overlap != request.overlap then Rejected(IdempotencyConflict)
                          else if expires.value <= second.now then Rejected(HandoffExpired)
                          else outcome)
  {
    DeliveredIsKept(records, key, request, first);
    var after := Uninterrupted(records, key, request, first).0;
    assert IsOwner(after, OwnerOf(after, request), request);
    assert IsOwner(after, OwnerOf(after, again), again);
    assert SameRequest(after[OwnerOf(after, request)], after[OwnerOf(after, again)]);
  }

  // ---------- an uninterrupted issuance is a run of the protocol ----------

  ghost predicate Reaches(s: System, steps: seq<Step>, t: System)
    decreases |steps|
  {
    if steps == [] then s == t else Enabled(s, steps[0]) && Reaches(Apply(s, steps[0]), steps[1..], t)
  }

  lemma ReachesOne(s: System, step: Step, rest: seq<Step>, t: System)
    requires Enabled(s, step) && Reaches(Apply(s, step), rest, t)
    ensures Reaches(s, [step] + rest, t)
  {
    assert ([step] + rest)[1..] == rest;
  }

  /** The flight `f` of a system, and everything else as it was but the store and the history. */
  ghost predicate Landed(s: System, f: nat, t: System, records: Records, outcome: Outcome) {
    && |t.flights| == |s.flights| && f < |s.flights| && t.flights[f] == s.flights[f].(phase := Settled(outcome))
    && (forall i :: 0 <= i < |s.flights| && i != f ==> t.flights[i] == s.flights[i])
    && t.store == records && t.inFlight == s.inFlight && t.now == s.now && t.key == s.key
  }

  lemma RefusalIsARun(s: System, f: nat, record: Record, overlap: Option<int>, message: string, now: int)
    returns (steps: seq<Step>, t: System)
    requires f < |s.flights| && s.flights[f].phase == Minting(record, overlap) && record.id in s.store && now == s.now
    ensures Reaches(s, steps, t)
    ensures Landed(s, f, t, s.store[record.id := WithFailure(s.store[record.id], message, now)], Rejected(IssuerFailed))
  {
    var s1 := Apply(s, Enqueue(f, 0));
    var s2 := Apply(s1, Refusal(f, message));
    t := Apply(s2, RecordFailure(f));
    assert Reaches(t, [], t);
    ReachesOne(s2, RecordFailure(f), [], t);
    steps := [RecordFailure(f)] + [];
    ReachesOne(s1, Refusal(f, message), steps, t);
    steps := [Refusal(f, message)] + steps;
    ReachesOne(s, Enqueue(f, 0), steps, t);
    steps := [Enqueue(f, 0)] + steps;
  }

  lemma AnswerIsARun(s: System, f: nat, record: Record, credential: Credential, iv: string) returns (steps: seq<Step>, t: System)
    requires f < |s.flights| && s.flights[f].phase.Recording? && s.flights[f].phase == Recording(record, credential)
    requires record.id in s.store && s.store[record.id].id == record.id
    ensures Reaches(s, steps, t)
    ensures var handoff := Handoff(credential, s.now);
            Landed(s, f, t, s.store[record.id := Sealed(s.store[record.id], handoff, s.key, iv)], Delivered(record.id, handoff))
  {
    var s1 := Apply(s, RecordKey(f, true));
    t := Apply(s1, Complete(f, iv, true));
    assert Reaches(t, [], t);
    ReachesOne(s1, Complete(f, iv, true), [], t);
    steps := [Complete(f, iv, true)] + [];
    ReachesOne(s, RecordKey(f, true), steps, t);
    steps := [RecordKey(f, true)] + steps;
    assert t.store == s.store[record.id := Sealed(s.store[record.id], Handoff(credential, s.now), s.key, iv)];
  }

  /** From minting on, the protocol can do what the object does. */
  lemma MintIsARun(s: System, f: nat, record: Record, overlap: Option<int>, world: World) returns (steps: seq<Step>, t: System)
    requires f < |s.flights| && s.flights[f].phase == Minting(record, overlap) && world.now == s.now
    requires record.id in s.store && s.store[record.id].id == record.id
    requires AnswersFor(world, s.flights[f].request.environment)
    ensures Reaches(s, steps, t)
    ensures var (records, outcome) := Minted(s.store, record.id, s.key, overlap, world); Landed(s, f, t, records, outcome)
  {
    match world.issue(s.store[record.id].actor, overlap)
    case Err(message) =>
      steps, t := RefusalIsARun(s, f, record, overlap, message, world.now);
    case Ok(credential) =>
      var s1 := Apply(s, Enqueue(f, 0));
      var s2 := Apply(s1, Answer(f, credential));
      steps, t := AnswerIsARun(s2, f, record, credential, world.iv);
      ReachesOne(s1, Answer(f, credential), steps, t);
      steps := [Answer(f, credential)] + steps;
      ReachesOne(s, Enqueue(f, 0), steps, t);
      steps := [Enqueue(f, 0)] + steps;
  }

  lemma AfterOne(s: System, step: Step, rest: seq<Step>, f: nat, s1: System, t: System, records: Records, outcome: Outcome)
    requires Enabled(s, step) && s1 == Apply(s, step) && Reaches(s1, rest, t) && Landed(s1, f, t, records, outcome)
    requires |s1.flights| == |s.flights| && f < |s.flights| && s1.flights[f].request == s.flights[f].request
    requires (forall i :: 0 <= i < |s.flights| && i != f ==> s1.flights[i] == s.flights[i])
    requires s1.inFlight == s.inFlight && s1.now == s.now && s1.key == s.key
    ensures Reaches(s, [step] + rest, t) && Landed(s, f, t, records, outcome)
  {
    ReachesOne(s, step, rest, t);
  }

  /** Recovery of a record that did not finish: revoke what it may have minted, reopen it, mint with no overlap. */
  lemma RecoveryIsARun(s: System, f: nat, record: Record, world: World) returns (steps: seq<Step>, t: System)
    requires f < |s.flights| && world.now == s.now && record.id in s.store && s.store[record.id] == record
    requires s.flights[f].phase == if record.issuedKey.Some? then Revoking(record) else Reopening(record)
    requires AnswersFor(world, s.flights[f].request.environment)
    ensures Reaches(s, steps, t)
    ensures if record.issuedKey.Some? && !world.revocationAccepted
            then Landed(s, f, t, s.store, Rejected(RevocationFailed))
            else var (records, outcome) := Minted(s.store[record.id := Reopened(record)], record.id, s.key, Some(0), world);
                 Landed(s, f, t, records, outcome)
  {
    if record.issuedKey.Some? && !world.revocationAccepted {
      t := Apply(s, RevocationRejected(f));
      assert Reaches(t, [], t);
      steps := [RevocationRejected(f)] + [];
      ReachesOne(s, RevocationRejected(f), [], t);
    } else {
      var (records, outcome) := Minted(s.store[record.id := Reopened(record)], record.id, s.key, Some(0), world);
      var before := if record.issuedKey.Some? then Apply(s, Revoked(f)) else s;
      var reopened := Apply(before, Reopen(f, true));
      steps, t := MintIsARun(reopened, f, record, Some(0), world);
      AfterOne(before, Reopen(f, true), steps, f, reopened, t, records, outcome);
      steps := [Reopen(f, true)] + steps;
      if record.issuedKey.Some? {
        AfterOne(s, Revoked(f), steps, f, before, t, records, outcome);
        steps := [Revoked(f)] + steps;
      }
    }
  }

  lemma ClaimedIsARun(s: System, f: nat, request: Request, world: World) returns (steps: seq<Step>, t: System)
    requires WellFormed(s.store) && world.id !in s.store && world.now == s.now
    requires f < |s.flights| && s.flights[f] == Flight(request, Claiming)
    requires AnswersFor(world, request.environment)
    ensures Reaches(s, steps, t)
    ensures var (records, outcome) := Uninterrupted(s.store, s.key, request, world); Landed(s, f, t, records, outcome)
  {
    var claim := Step.Claim(f, world.id, true);
    var s1 := Apply(s, claim);
    var (records, outcome) := Uninterrupted(s.store, s.key, request, world);
    if !Owned(s.store, request.environment, request.idempotencyKey) {
      steps, t := MintIsARun(s1, f, Fresh(request, world), request.overlap, world);
    } else {
      var r := s.store[OwnerOf(s.store, request)];
      assert IsOwner(s.store, OwnerOf(s.store, request), request);
      if r.fingerprint != FingerprintOf(request) {
        steps, t := [], s1;
      } else if r.state.Issued? {
        t := Apply(s1, Step.Replay(f));
        assert Reaches(t, [], t);
        ReachesOne(s1, Step.Replay(f), [], t);
        steps := [Step.Replay(f)] + [];
      } else {
        steps, t := RecoveryIsARun(s1, f, r, world);
      }
    }
    AfterOne(s, claim, steps, f, s1, t, records, outcome);
    steps := [claim] + steps;
  }

  /** Whatever the object answers and stores, the protocol reaches too: it refines the protocol's call by call. */
  lemma IssueIsARun(s: System, request: Request, world: World) returns (steps: seq<Step>, t: System)
    requires WellFormed(s.store) && world.id !in s.store && world.now == s.now && KeyOf(request) !in s.inFlight
    requires AnswersFor(world, request.environment)
    ensures Reaches(s, steps, t) && steps != [] && steps[0] == Call(request)
    ensures var (records, outcome) := Uninterrupted(s.store, s.key, request, world);
            && t.store == records && |t.flights| == |s.flights| + 1
            && t.flights[|s.flights|] == Flight(request, Settled(outcome)) && t.flights[..|s.flights|] == s.flights
  {
    var s1 := Apply(s, Call(request));
    steps, t := ClaimedIsARun(s1, |s.flights|, request, world);
    ReachesOne(s, Call(request), steps, t);
    steps := [Call(request)] + steps;
  }
}
