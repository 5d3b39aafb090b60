/**
 The merchant-credential service as a protocol: every call to the store or the issuer is one
 step, steps of concurrent calls interleave freely, any store call may fail before or after it
 takes effect, and the process may crash between any two steps.  A crash forgets the flights
 and keeps the store.
 */
module CredentialService {
  import opened Prelude
  import opened Handoffs
  import opened CredentialStore

  datatype Request = Request(environment: string, idempotencyKey: string, kind: Kind, overlap: Option<int>, subject: string)

  datatype Rejection = IdempotencyConflict | HandoffExpired | RevocationFailed | IssuerFailed | StoreUnavailable

  datatype Outcome = Delivered(operation: string, handoff: Handoff) | Rejected(reason: Rejection)

  datatype Phase =
    | Claiming
    | Replaying(record: Record)
    | Revoking(record: Record)
    | Reopening(record: Record)
    | Minting(record: Record, overlap: Option<int>)
    | Awaiting(record: Record, overlap: Option<int>, ticket: nat)
    | Failing(record: Record, message: string)
    | Recording(record: Record, credential: Credential)
    | Completing(record: Record, handoff: Handoff)
    | Settled(outcome: Outcome)
    | Lost

  datatype Flight = Flight(request: Request, phase: Phase)

  /** Calls share a flight only when their whole requests agree: of two that differ in anything else, each asks the store itself. */
  datatype FlightKey = FlightKey(environment: string, idempotencyKey: string, fingerprint: Fingerprint)

  /** `handed` is a history variable: the handoff of each operation that was completed. */
  datatype System = System(
    now: int,
    key: EncryptionKey,
    store: Records,
    flights: seq<Flight>,
    inFlight: map<FlightKey, nat>,
    handed: map<string, Handoff>)

  datatype Step =
    | Call(request: Request)
    | Claim(flight: nat, id: string, acknowledged: bool)
    | Replay(flight: nat)
    | Revoked(flight: nat)
    | RevocationRejected(flight: nat)
    | Reopen(flight: nat, acknowledged: bool)
    | Enqueue(flight: nat, ticket: nat)
    | Answer(flight: nat, credential: Credential)
    | Refusal(flight: nat, message: string)
    | RecordFailure(flight: nat)
    | RecordKey(flight: nat, acknowledged: bool)
    | Complete(flight: nat, iv: string, acknowledged: bool)
    | StoreRejects(flight: nat)
    | Finish(flight: nat)
    | Purge
    | Tick(now: int)
    | Crash

  function FingerprintOf(r: Request): Fingerprint {
    Fingerprint(r.environment, r.kind, r.overlap)
  }

  /** The fingerprint tells requests of one key apart by everything they ask for, and by nothing else. */
  lemma FingerprintsAgreeExactly(a: Request, b: Request)
    ensures FingerprintOf(a) == FingerprintOf(b) <==> a.environment == b.environment && a.kind == b.kind && a.overlap == b.overlap
  {
  }

  function KeyOf(r: Request): FlightKey {
    FlightKey(r.environment, r.idempotencyKey, FingerprintOf(r))
  }

  predicate Running(phase: Phase) {
    !phase.Settled? && !phase.Lost?
  }

  predicate CallsStore(phase: Phase) {
    phase.Claiming? || phase.Reopening? || phase.Failing? || phase.Recording? || phase.Completing?
  }

  predicate PastCheck(phase: Phase) {
    Running(phase) && !phase.Claiming?
  }

  /** Past the check and about to change something: the environment's keys or the record. */
  predicate Issuing(phase: Phase) {
    PastCheck(phase) && !phase.Replaying?
  }

  function ReplayOf(r: Record, key: EncryptionKey, now: int): Outcome {
    if r.envelope.None? || r.handoffExpires.None? || r.handoffExpires.value <= now then Rejected(HandoffExpired)
    else match Decrypt(r.envelope.value, key, r.environment, r.id)
         case Ok(handoff) => Delivered(r.id, handoff)
         case Err(_) => Rejected(HandoffExpired)
  }

  function Replayed(s: System, r: Record): Outcome {
    ReplayOf(r, s.key, s.now)
  }

  /** Where a flight goes once its claim is answered with the record that owns the key. */
  function Claimed(request: Request, existing: Record): Phase {
    if existing.fingerprint != FingerprintOf(request) then Settled(Rejected(IdempotencyConflict))
    else if existing.state.Issued? then Replaying(existing)
    else if existing.issuedKey.Some? then Revoking(existing)
    else Reopening(existing)
  }

  function NewRecord(request: Request, id: string, now: int): Record {
    Record(id, request.environment, request.idempotencyKey, FingerprintOf(request), Pending, request.subject,
           None, None, None, None, None, now, None)
  }

  ghost predicate At(s: System, i: nat, p: Phase -> bool) {
    i < |s.flights| && p(s.flights[i].phase)
  }

  ghost predicate Enabled(s: System, step: Step) {
    match step
    case Call(_) => true
    case Claim(i, id, _) => At(s, i, (p: Phase) => p.Claiming?) && id !in s.store
    case Replay(i) => At(s, i, (p: Phase) => p.Replaying?)
    case Revoked(i) => At(s, i, (p: Phase) => p.Revoking?)
    case RevocationRejected(i) => At(s, i, (p: Phase) => p.Revoking?)
    case Reopen(i, _) => At(s, i, (p: Phase) => p.Reopening?) && s.flights[i].phase.record.id in s.store
    case Enqueue(i, _) => At(s, i, (p: Phase) => p.Minting?)
    case Answer(i, credential) =>
      At(s, i, (p: Phase) => p.Awaiting?) && credential.environment == s.flights[i].request.environment
    case Refusal(i, _) => At(s, i, (p: Phase) => p.Awaiting?)
    case RecordFailure(i) => At(s, i, (p: Phase) => p.Failing?) && s.flights[i].phase.record.id in s.store
    case RecordKey(i, _) => At(s, i, (p: Phase) => p.Recording?) && s.flights[i].phase.record.id in s.store
    case Complete(i, _, _) => At(s, i, (p: Phase) => p.Completing?) && s.flights[i].phase.record.id in s.store
    case StoreRejects(i) => At(s, i, CallsStore)
    case Finish(i) => At(s, i, (p: Phase) => p.Settled?)
    case Purge => true
    case Tick(now) => s.now <= now
    case Crash => true
  }

  function Goto(s: System, i: nat, phase: Phase): System
    requires i < |s.flights|
  {
    s.(flights := s.flights[i := s.flights[i].(phase := phase)])
  }

  /** A store call that took effect; if its acknowledgement is lost the flight fails anyway. */
  function Store(s: System, i: nat, id: string, record: Record, acknowledged: bool, phase: Phase): System
    requires i < |s.flights|
  {
    Goto(s.(store := s.store[id := record]), i,
         if acknowledged then phase else Settled(Rejected(StoreUnavailable)))
  }

  function Abandon(flights: seq<Flight>): (r: seq<Flight>)
    ensures |r| == |flights|
    ensures forall i :: 0 <= i < |r| ==>
              r[i] == if Running(flights[i].phase) then flights[i].(phase := Lost) else flights[i]
  {
    seq(|flights|, i requires 0 <= i < |flights| =>
      if Running(flights[i].phase) then flights[i].(phase := Lost) else flights[i])
  }

  ghost predicate IsOwner(store: Records, id: string, request: Request) {
    Owns(store, id, request.environment, request.idempotencyKey)
  }

  ghost function OwnerOf(store: Records, request: Request): (id: string)
    requires Owned(store, request.environment, request.idempotencyKey)
    ensures IsOwner(store, id, request)
  {
    var owner :| Owns(store, owner, request.environment, request.idempotencyKey);
    owner
  }

  ghost function Apply(s: System, step: Step): System
    requires Enabled(s, step)
  {
    match step
    case Call(request) =>
      if KeyOf(request) in s.inFlight then s
      else s.(flights := s.flights + [Flight(request, Claiming)], inFlight := s.inFlight[KeyOf(request) := |s.flights|])
    case Claim(i, id, acknowledged) =>
      var request := s.flights[i].request;
      if Owned(s.store, request.environment, request.idempotencyKey) then
        Goto(s, i, if acknowledged then Claimed(request, s.store[OwnerOf(s.store, request)])
                   else Settled(Rejected(StoreUnavailable)))
      else
        var record := NewRecord(request, id, s.now);
        Store(s, i, id, record, acknowledged, Minting(record, request.overlap))
    case Replay(i) => Goto(s, i, Settled(Replayed(s, s.flights[i].phase.record)))
    case Revoked(i) => Goto(s, i, Reopening(s.flights[i].phase.record))
    case RevocationRejected(i) => Goto(s, i, Settled(Rejected(RevocationFailed)))
    case Reopen(i, acknowledged) =>
      var record := s.flights[i].phase.record;
      // Zero overlap on recovery, whatever overlap was asked for.
      Store(s, i, record.id, Reopened(s.store[record.id]), acknowledged, Minting(record, Some(0)))
    case Enqueue(i, ticket) => Goto(s, i, Awaiting(s.flights[i].phase.record, s.flights[i].phase.overlap, ticket))
    case Answer(i, credential) => Goto(s, i, Recording(s.flights[i].phase.record, credential))
    case Refusal(i, message) => Goto(s, i, Failing(s.flights[i].phase.record, message))
    case RecordFailure(i) =>
      var Failing(record, message) := s.flights[i].phase;
      Store(s, i, record.id, WithFailure(s.store[record.id], message, s.now), true, Settled(Rejected(IssuerFailed)))
    case RecordKey(i, acknowledged) =>
      var Recording(record, credential) := s.flights[i].phase;
      Store(s, i, record.id, WithIssuedKey(s.store[record.id], credential.apiKeyId), acknowledged,
            Completing(record, Handoff(credential, s.now)))
    case Complete(i, iv, acknowledged) =>
      var Completing(record, handoff) := s.flights[i].phase;
      Store(s.(handed := s.handed[record.id := handoff]), i, record.id,
            Completed(s.store[record.id], handoff.credential.apiKeyId, handoff.credential.replacedExpires,
                      Encrypt(handoff, s.key, record.id, iv), handoff.issuedAt + HANDOFF_RETENTION_MS,
                      handoff.issuedAt),
            acknowledged, Settled(Delivered(record.id, handoff)))
    case StoreRejects(i) => Goto(s, i, Settled(Rejected(StoreUnavailable)))
    case Finish(i) =>
      var key := KeyOf(s.flights[i].request);
      if key in s.inFlight && s.inFlight[key] == i then s.(inFlight := s.inFlight - {key}) else s
    case Purge => s.(store := PurgeAll(s.store, s.now))
    case Tick(now) => s.(now := now)
    case Crash => s.(flights := Abandon(s.flights), inFlight := map[])
  }

  ghost predicate IsRun(states: seq<System>, steps: seq<Step>) {
    && |states| == |steps| + 1
    && forall n :: 0 <= n < |steps| ==> Enabled(states[n], steps[n]) && states[n + 1] == Apply(states[n], steps[n])
  }
}
