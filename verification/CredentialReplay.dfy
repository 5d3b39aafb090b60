/**
 What every interleaving of calls, lost acknowledgements, purges and crashes keeps:
 one flight per idempotency key changes anything, an issued operation stays issued, and
 everybody who is ever handed its credential is handed the same one.
 */
module CredentialReplay {
  import opened Prelude
  import opened Handoffs
  import opened CredentialStore
  import opened CredentialService

  // ---------- the invariant ----------

  ghost predicate RecordOk(s: System, id: string)
    requires id in s.store
  {
    var r := s.store[id];
    && r.fingerprint.environment == r.environment
    && (r.state.Failed? ==> r.issuedKey.None?)
    && (!r.state.Issued? ==> r.envelope.None? && id !in s.handed)
    && (r.state.Issued? ==>
          && id in s.handed
          && r.issuedKey == Some(s.handed[id].credential.apiKeyId)
          && Sealed(s, r, s.handed[id]))
  }

  /** The record's envelope opens to the handoff; it may be gone only once its retention is over. */
  ghost predicate Sealed(s: System, r: Record, handoff: Handoff) {
    && r.handoffExpires == Some(handoff.issuedAt + HANDOFF_RETENTION_MS)
    && (r.envelope.Some? ==> Decrypt(r.envelope.value, s.key, r.environment, r.id) == Ok(handoff))
    && (r.envelope.None? ==> r.handoffExpires.value <= s.now)
  }

  /** The operation is this request's own: same environment, same idempotency key, same fingerprint. */
  ghost predicate Mine(s: System, request: Request, id: string) {
    IsOwner(s.store, id, request) && s.store[id].fingerprint == FingerprintOf(request)
  }

  ghost predicate PhaseOk(s: System, request: Request, phase: Phase) {
    match phase
    case Claiming => true
    case Replaying(r) =>
      && Mine(s, request, r.id) && s.store[r.id].state.Issued? && r.id in s.handed
      && r.environment == request.environment && Sealed(s, r, s.handed[r.id])
    case Revoking(r) => Mine(s, request, r.id) && s.store[r.id] == r && r.state.Pending? && r.issuedKey.Some?
    case Reopening(r) => Mine(s, request, r.id) && !s.store[r.id].state.Issued?
    case Minting(r, _) => Blank(s, request, r)
    case Awaiting(r, _, _) => Blank(s, request, r)
    case Failing(r, _) => Blank(s, request, r)
    case Recording(r, credential) => Blank(s, request, r) && credential.environment == request.environment
    case Completing(r, handoff) =>
      && Mine(s, request, r.id) && s.store[r.id].state.Pending?
      && s.store[r.id].issuedKey == Some(handoff.credential.apiKeyId)
      && handoff.credential.environment == request.environment && handoff.issuedAt <= s.now
    case Settled(Delivered(id, handoff)) =>
      Mine(s, request, id) && s.store[id].state.Issued? && id in s.handed && s.handed[id] == handoff
    case Settled(Rejected(_)) => true
    case Lost => true
  }

  ghost predicate Blank(s: System, request: Request, r: Record) {
    Mine(s, request, r.id) && s.store[r.id].state.Pending? && s.store[r.id].issuedKey.None?
  }

  ghost predicate FlightsOk(s: System) {
    forall i :: 0 <= i < |s.flights| ==> PhaseOk(s, s.flights[i].request, s.flights[i].phase)
  }

  ghost predicate RecordsOk(s: System) {
    && WellFormed(s.store)
    && s.handed.Keys <= s.store.Keys
    && forall id :: id in s.store ==> RecordOk(s, id)
  }

  /** A running flight is the one filed in the map under its key. */
  ghost predicate SingleFlight(s: System) {
    && (forall i :: 0 <= i < |s.flights| && Running(s.flights[i].phase) ==>
          KeyOf(s.flights[i].request) in s.inFlight && s.inFlight[KeyOf(s.flights[i].request)] == i)
    && (forall key :: key in s.inFlight ==>
          s.inFlight[key] < |s.flights| && KeyOf(s.flights[s.inFlight[key]].request) == key)
  }

  ghost predicate Inv(s: System) {
    RecordsOk(s) && FlightsOk(s) && SingleFlight(s)
  }

  ghost predicate SameKey(a: Request, b: Request) {
    a.environment == b.environment && a.idempotencyKey == b.idempotencyKey
  }

  /** The record a flight that is past the check works on. */
  function OperationOf(phase: Phase): string
    requires PastCheck(phase)
  {
    phase.record.id
  }

  // ---------- at most one flight past the fingerprint check ----------

  lemma OnePastTheCheck(s: System, i: nat, j: nat)
    requires Inv(s) && i < |s.flights| && j < |s.flights|
    requires PastCheck(s.flights[i].phase) && PastCheck(s.flights[j].phase)
    requires SameKey(s.flights[i].request, s.flights[j].request)
    ensures i == j
  {
    var (a, b) := (s.flights[i], s.flights[j]);
    assert PhaseOk(s, a.request, a.phase) && PhaseOk(s, b.request, b.phase);
    assert Mine(s, a.request, OperationOf(a.phase)) && Mine(s, b.request, OperationOf(b.phase));
    assert SameRequest(s.store[OperationOf(a.phase)], s.store[OperationOf(b.phase)]);
    assert KeyOf(a.request) == KeyOf(b.request);
  }

  // ---------- every step keeps the invariant ----------

  function Reference(phase: Phase): Option<string> {
    match phase
    case Settled(Delivered(id, _)) => Some(id)
    case _ => if PastCheck(phase) then Some(OperationOf(phase)) else None
  }

  ghost predicate Untouched(s: System, after: System, id: string) {
    && (id in s.store ==> id in after.store && after.store[id] == s.store[id])
    && (id in s.handed ==> id in after.handed && after.handed[id] == s.handed[id])
  }

  lemma PhaseFrame(s: System, after: System, request: Request, phase: Phase)
    requires PhaseOk(s, request, phase) && after.key == s.key && s.now <= after.now
    requires Reference(phase).Some? ==> Untouched(s, after, Reference(phase).value)
    ensures PhaseOk(after, request, phase)
  {
  }

  /** No other flight refers to an operation that one flight is working on. */
  lemma WorksAlone(s: System, i: nat, j: nat)
    requires Inv(s) && i < |s.flights| && j < |s.flights| && i != j
    requires Issuing(s.flights[i].phase)
    ensures Reference(s.flights[j].phase) != Some(OperationOf(s.flights[i].phase))
  {
    var (a, b) := (s.flights[i], s.flights[j]);
    assert PhaseOk(s, a.request, a.phase) && PhaseOk(s, b.request, b.phase);
    if Reference(b.phase) == Some(OperationOf(a.phase)) {
      assert Mine(s, a.request, OperationOf(a.phase)) && Mine(s, b.request, OperationOf(a.phase));
      assert SameKey(a.request, b.request);
      if PastCheck(b.phase) {
        OnePastTheCheck(s, i, j);
      }
    }
  }

  /** A flight moves on and may rewrite the record of the operation it works on. */
  lemma FlightsAfterWrite(s: System, after: System, i: nat)
    requires Inv(s) && i < |s.flights| && Issuing(s.flights[i].phase)
    requires after.key == s.key && s.now <= after.now
    requires |after.flights| == |s.flights|
    requires forall j :: 0 <= j < |s.flights| && j != i ==> after.flights[j] == s.flights[j]
    requires forall id :: id != OperationOf(s.flights[i].phase) ==> Untouched(s, after, id)
    requires PhaseOk(after, after.flights[i].request, after.flights[i].phase)
    ensures FlightsOk(after)
  {
    forall j | 0 <= j < |after.flights|
      ensures PhaseOk(after, after.flights[j].request, after.flights[j].phase)
    {
      if j != i {
        WorksAlone(s, i, j);
        PhaseFrame(s, after, s.flights[j].request, s.flights[j].phase);
      }
    }
  }

  /** Nothing a flight refers to changes, except that one flight moves on. */
  lemma FlightsAfterMove(s: System, after: System, i: nat)
    requires FlightsOk(s) && i < |s.flights|
    requires after.key == s.key && s.now <= after.now
    requires |after.flights| == |s.flights|
    requires forall j :: 0 <= j < |s.flights| && j != i ==> after.flights[j] == s.flights[j]
    requires forall id :: id in s.store ==> Untouched(s, after, id)
    requires s.handed.Keys <= s.store.Keys
    requires PhaseOk(after, after.flights[i].request, after.flights[i].phase)
    ensures FlightsOk(after)
  {
    forall j | 0 <= j < |after.flights|
      ensures PhaseOk(after, after.flights[j].request, after.flights[j].phase)
    {
      if j != i {
        assert PhaseOk(s, s.flights[j].request, s.flights[j].phase);
        PhaseFrame(s, after, s.flights[j].request, s.flights[j].phase);
      }
    }
  }

  lemma SingleFlightMove(s: System, after: System, i: nat)
    requires SingleFlight(s) && i < |s.flights| && Running(s.flights[i].phase)
    requires after.inFlight == s.inFlight && |after.flights| == |s.flights|
    requires forall j :: 0 <= j < |s.flights| && j != i ==> after.flights[j] == s.flights[j]
    requires after.flights[i].request == s.flights[i].request
    ensures SingleFlight(after)
  {
  }

  lemma PurgeRecord(s: System, after: System, id: string)
    requires RecordsOk(s) && after == s.(store := PurgeAll(s.store, s.now)) && id in s.store
    ensures RecordOk(after, id)
  {
    assert RecordOk(s, id);
  }

  lemma PurgePhase(s: System, after: System, request: Request, phase: Phase)
    requires RecordsOk(s) && after == s.(store := PurgeAll(s.store, s.now)) && PhaseOk(s, request, phase)
    ensures PhaseOk(after, request, phase)
  {
    if Reference(phase).Some? {
      var id := Reference(phase).value;
      assert RecordOk(s, id);
      assert after.store[id].(envelope := s.store[id].envelope) == s.store[id];
      assert !s.store[id].state.Issued? ==> after.store[id] == s.store[id];
    }
  }

  lemma PurgedRecords(s: System, after: System)
    requires RecordsOk(s) && after == s.(store := PurgeAll(s.store, s.now))
    ensures RecordsOk(after)
  {
    PurgingKeepsRecords(s.store, s.now);
    forall id | id in after.store ensures RecordOk(after, id) {
      PurgeRecord(s, after, id);
    }
  }

  lemma PurgeKeepsInv(s: System)
    requires Inv(s)
    ensures Inv(Apply(s, Purge))
  {
    var after := s.(store := PurgeAll(s.store, s.now));
    PurgedRecords(s, after);
    forall i | 0 <= i < |after.flights| ensures PhaseOk(after, after.flights[i].request, after.flights[i].phase) {
      PurgePhase(s, after, s.flights[i].request, s.flights[i].phase);
    }
  }

  /** The records ask for the store, the history, the key and the clock, and for nothing else. */
  lemma RecordsFrame(s: System, after: System)
    requires RecordsOk(s) && after.store == s.store && after.handed == s.handed && after.key == s.key && s.now <= after.now
    ensures RecordsOk(after)
  {
    forall id | id in after.store ensures RecordOk(after, id) {
      assert RecordOk(s, id);
    }
  }

  lemma CallKeepsInv(s: System, request: Request)
    requires Inv(s)
    ensures Inv(Apply(s, Call(request)))
  {
    var after := Apply(s, Call(request));
    forall i | 0 <= i < |after.flights|
      ensures PhaseOk(after, after.flights[i].request, after.flights[i].phase)
    {
      if i < |s.flights| {
        assert after.flights[i] == s.flights[i];
        PhaseFrame(s, after, s.flights[i].request, s.flights[i].phase);
      }
    }
    RecordsFrame(s, after);
  }

  /** A flight moves on and the store stays as it is. */
  lemma MoveKeepsInv(s: System, i: nat, phase: Phase)
    requires Inv(s) && i < |s.flights| && Running(s.flights[i].phase)
    requires PhaseOk(s, s.flights[i].request, phase)
    ensures Inv(Goto(s, i, phase))
  {
    var after := Goto(s, i, phase);
    SingleFlightMove(s, after, i);
    PhaseFrame(s, after, s.flights[i].request, phase);
    FlightsAfterMove(s, after, i);
    RecordsFrame(s, after);
  }

  lemma RecordsAfterClaim(s: System, after: System, request: Request, id: string)
    requires RecordsOk(s) && id !in s.store && !Owned(s.store, request.environment, request.idempotencyKey)
    requires after.store == s.store[id := NewRecord(request, id, s.now)]
    requires after.key == s.key && after.now == s.now && after.handed == s.handed
    ensures RecordsOk(after)
  {
    forall other | other in s.store ensures !SameRequest(s.store[other], after.store[id]) {
      assert !Owns(s.store, other, request.environment, request.idempotencyKey);
    }
    forall other | other in after.store ensures RecordOk(after, other) {
      assert other in s.store ==> RecordOk(s, other);
    }
  }

  lemma NewRecordKeepsInv(s: System, after: System, i: nat, id: string)
    requires Inv(s) && i < |s.flights| && s.flights[i].phase.Claiming? && id !in s.store
    requires |after.flights| == |s.flights|
    requires var request := s.flights[i].request;
             && !Owned(s.store, request.environment, request.idempotencyKey)
             && after.store == s.store[id := NewRecord(request, id, s.now)] && after.flights[i].request == request
             && PhaseOk(after, request, after.flights[i].phase)
    requires after.flights == s.flights[i := after.flights[i]]
    requires after.inFlight == s.inFlight && after.key == s.key && after.now == s.now && after.handed == s.handed
    ensures Inv(after)
  {
    SingleFlightMove(s, after, i);
    RecordsAfterClaim(s, after, s.flights[i].request, id);
    FlightsAfterMove(s, after, i);
  }

  lemma ClaimKeepsInv(s: System, i: nat, id: string, acknowledged: bool)
    requires Inv(s) && Enabled(s, Claim(i, id, acknowledged))
    ensures Inv(Apply(s, Claim(i, id, acknowledged)))
  {
    var after := Apply(s, Claim(i, id, acknowledged));
    var request := s.flights[i].request;
    if Owned(s.store, request.environment, request.idempotencyKey) {
      var owner := OwnerOf(s.store, request);
      assert RecordOk(s, owner);
      MoveKeepsInv(s, i, after.flights[i].phase);
    } else {
      NewRecordKeepsInv(s, after, i, id);
    }
  }

  predicate IsQuiet(step: Step) {
    step.Replay? || step.Revoked? || step.RevocationRejected? || step.Enqueue? || step.Answer? || step.Refusal? || step.StoreRejects?
  }

  /** Where a step that changes nothing but its flight takes that flight. */
  function NextPhase(s: System, step: Step): Phase
    requires IsQuiet(step) && step.flight < |s.flights|
    requires !step.StoreRejects? ==> PastCheck(s.flights[step.flight].phase)
    requires step.Enqueue? ==> s.flights[step.flight].phase.Minting?
  {
    var phase := s.flights[step.flight].phase;
    if step.Replay? then Settled(Replayed(s, phase.record))
    else if step.Revoked? then Reopening(phase.record)
    else if step.RevocationRejected? then Settled(Rejected(RevocationFailed))
    else if step.Enqueue? then Awaiting(phase.record, phase.overlap, step.ticket)
    else if step.Answer? then Recording(phase.record, step.credential)
    else if step.Refusal? then Failing(phase.record, step.message)
    else Settled(Rejected(StoreUnavailable))
  }

  lemma QuietStepMoves(s: System, step: Step)
    requires Enabled(s, step) && IsQuiet(step)
    ensures Apply(s, step) == Goto(s, step.flight, NextPhase(s, step)) && Running(s.flights[step.flight].phase)
  {
  }

  lemma QuietPhaseIsOk(s: System, step: Step)
    requires Enabled(s, step) && IsQuiet(step) && PhaseOk(s, s.flights[step.flight].request, s.flights[step.flight].phase)
    ensures PhaseOk(s, s.flights[step.flight].request, NextPhase(s, step))
  {
  }

  lemma QuietKeepsInv(s: System, step: Step)
    requires Inv(s) && Enabled(s, step) && IsQuiet(step)
    ensures Inv(Apply(s, step))
  {
    QuietStepMoves(s, step);
    QuietPhaseIsOk(s, step);
    MoveKeepsInv(s, step.flight, NextPhase(s, step));
  }

  lemma RecordsAfterWrite(s: System, after: System, id: string)
    requires RecordsOk(s) && id in s.store && id in after.store && after.store == s.store[id := after.store[id]]
    requires after.key == s.key && after.now == s.now
    requires after.handed == s.handed || (id in after.handed && after.handed == s.handed[id := after.handed[id]])
    requires after.store[id].id == id && SameRequest(after.store[id], s.store[id]) && RecordOk(after, id)
    ensures RecordsOk(after)
  {
    forall other | other in after.store ensures RecordOk(after, other) {
      assert other != id ==> RecordOk(s, other);
    }
  }

  /** A flight that rewrites the record of its own operation, and only that one, keeps the invariant. */
  lemma OwnWriteKeepsInv(s: System, after: System, i: nat, record: Record, phase: Phase)
    requires Inv(s) && i < |s.flights| && Issuing(s.flights[i].phase)
    requires var id := OperationOf(s.flights[i].phase);
             && after.store == s.store[id := record] && after.flights == s.flights[i := s.flights[i].(phase := phase)]
             && after.inFlight == s.inFlight && after.key == s.key && after.now == s.now
             && (after.handed == s.handed || (id in after.handed && after.handed == s.handed[id := after.handed[id]]))
             && id in s.store && record.id == id && SameRequest(record, s.store[id]) && RecordOk(after, id)
    requires PhaseOk(after, s.flights[i].request, phase)
    ensures Inv(after)
  {
    var id := OperationOf(s.flights[i].phase);
    SingleFlightMove(s, after, i);
    FlightsAfterWrite(s, after, i);
    RecordsAfterWrite(s, after, id);
  }

  lemma ReopenKeepsInv(s: System, step: Step)
    requires Inv(s) && Enabled(s, step) && step.Reopen?
    ensures Inv(Apply(s, step))
  {
    var (after, id) := (Apply(s, step), OperationOf(s.flights[step.flight].phase));
    assert PhaseOk(s, s.flights[step.flight].request, s.flights[step.flight].phase) && RecordOk(s, id);
    OwnWriteKeepsInv(s, after, step.flight, after.store[id], after.flights[step.flight].phase);
  }

  lemma FailureKeepsInv(s: System, step: Step)
    requires Inv(s) && Enabled(s, step) && step.RecordFailure?
    ensures Inv(Apply(s, step))
  {
    var (after, id) := (Apply(s, step), OperationOf(s.flights[step.flight].phase));
    assert PhaseOk(s, s.flights[step.flight].request, s.flights[step.flight].phase) && RecordOk(s, id);
    OwnWriteKeepsInv(s, after, step.flight, after.store[id], after.flights[step.flight].phase);
  }

  lemma KeyKeepsInv(s: System, step: Step)
    requires Inv(s) && Enabled(s, step) && step.RecordKey?
    ensures Inv(Apply(s, step))
  {
    var (after, id) := (Apply(s, step), OperationOf(s.flights[step.flight].phase));
    assert PhaseOk(s, s.flights[step.flight].request, s.flights[step.flight].phase) && RecordOk(s, id);
    OwnWriteKeepsInv(s, after, step.flight, after.store[id], after.flights[step.flight].phase);
  }

  lemma CompletionKeepsInv(s: System, step: Step)
    requires Inv(s) && Enabled(s, step) && step.Complete?
    ensures Inv(Apply(s, step))
  {
    var (after, id) := (Apply(s, step), OperationOf(s.flights[step.flight].phase));
    assert PhaseOk(s, s.flights[step.flight].request, s.flights[step.flight].phase) && RecordOk(s, id);
    OwnWriteKeepsInv(s, after, step.flight, after.store[id], after.flights[step.flight].phase);
  }

  lemma StepKeepsInv(s: System, step: Step)
    requires Inv(s) && Enabled(s, step)
    ensures Inv(Apply(s, step))
  {
    var after := Apply(s, step);
    match step
    case Call(request) => CallKeepsInv(s, request);
    case Claim(i, id, acknowledged) => ClaimKeepsInv(s, i, id, acknowledged);
    case Reopen(_, _) => ReopenKeepsInv(s, step);
    case RecordFailure(_) => FailureKeepsInv(s, step);
    case RecordKey(_, _) => KeyKeepsInv(s, step);
    case Complete(_, _, _) => CompletionKeepsInv(s, step);
    case Purge => PurgeKeepsInv(s);
    case Finish(_) => OthersKeepInv(s, step);
    case Tick(_) => OthersKeepInv(s, step);
    case Crash => OthersKeepInv(s, step);
    case _ => QuietKeepsInv(s, step);
  }

  lemma OthersKeepInv(s: System, step: Step)
    requires Inv(s) && Enabled(s, step) && (step.Finish? || step.Tick? || step.Crash?)
    ensures Inv(Apply(s, step))
  {
    var after := Apply(s, step);
    forall i | 0 <= i < |after.flights|
      ensures PhaseOk(after, after.flights[i].request, after.flights[i].phase)
    {
      PhaseFrame(s, after, s.flights[i].request, s.flights[i].phase);
    }
    RecordsFrame(s, after);
  }

  /** A service with no operations meets the invariant, whatever its clock and key; after a crash it is met still. */
  lemma NewServiceIsSound(now: int, key: EncryptionKey)
    ensures Inv(System(now, key, map[], [], map[], map[]))
  {
  }

  lemma {:induction false} RunKeepsInv(states: seq<System>, steps: seq<Step>, n: nat)
    requires IsRun(states, steps) && Inv(states[0]) && n < |states|
    ensures Inv(states[n])
  {
    if n > 0 {
      RunKeepsInv(states, steps, n - 1);
      StepKeepsInv(states[n - 1], steps[n - 1]);
    }
  }

  // ---------- guarantees over whole runs ----------

  lemma OneFlightPastTheCheck(states: seq<System>, steps: seq<Step>, n: nat, i: nat, j: nat)
    requires IsRun(states, steps) && Inv(states[0]) && n < |states|
    requires i < |states[n].flights| && j < |states[n].flights|
    requires SameKey(states[n].flights[i].request, states[n].flights[j].request)
    requires PastCheck(states[n].flights[i].phase) && PastCheck(states[n].flights[j].phase)
    ensures i == j
  {
    RunKeepsInv(states, steps, n);
    OnePastTheCheck(states[n], i, j);
  }

  predicate DeliveredTo(flight: Flight, handoff: Handoff) {
    flight.phase.Settled? && flight.phase.outcome.Delivered? && flight.phase.outcome.handoff == handoff
  }

  /** Whoever is handed a credential under one idempotency key is handed the same one, across crashes and retries. */
  lemma EverybodyIsHandedTheSame(states: seq<System>, steps: seq<Step>, n: nat, i: nat, j: nat, a: Handoff, b: Handoff)
    requires IsRun(states, steps) && Inv(states[0]) && n < |states|
    requires i < |states[n].flights| && j < |states[n].flights|
    requires SameKey(states[n].flights[i].request, states[n].flights[j].request)
    requires DeliveredTo(states[n].flights[i], a) && DeliveredTo(states[n].flights[j], b)
    ensures a == b
    ensures states[n].flights[i].request.kind == states[n].flights[j].request.kind
    ensures states[n].flights[i].request.overlap == states[n].flights[j].request.overlap
  {
    RunKeepsInv(states, steps, n);
    var s := states[n];
    assert PhaseOk(s, s.flights[i].request, s.flights[i].phase);
    assert PhaseOk(s, s.flights[j].request, s.flights[j].phase);
    assert SameRequest(s.store[s.flights[i].phase.outcome.operation], s.store[s.flights[j].phase.outcome.operation]);
  }

  ghost predicate IsIssued(s: System, id: string) {
    id in s.store && s.store[id].state.Issued? && id in s.handed
  }

  /** Everything about an issued operation stays, except that its envelope may be erased. */
  ghost predicate StaysIssued(s: System, after: System, id: string) {
    && IsIssued(s, id) && IsIssued(after, id) && after.handed[id] == s.handed[id]
    && after.store[id].(envelope := None) == s.store[id].(envelope := None)
    && (after.store[id].envelope.Some? ==> after.store[id] == s.store[id])
  }

  predicate Writes(step: Step) {
    step.Reopen? || step.RecordFailure? || step.RecordKey? || step.Complete?
  }

  lemma QuietStepsLeaveTheStore(s: System, step: Step)
    requires Enabled(s, step) && !Writes(step) && !step.Claim? && !step.Purge?
    ensures Apply(s, step).store == s.store && Apply(s, step).handed == s.handed
  {
  }

  lemma WritesTouchOneRecord(s: System, step: Step, id: string)
    requires Enabled(s, step) && Writes(step) && id != s.flights[step.flight].phase.record.id
    ensures Untouched(s, Apply(s, step), id)
  {
    match step
    case Reopen(_, _) =>
    case RecordFailure(_) =>
    case RecordKey(_, _) =>
    case Complete(_, _, _) =>
  }

  lemma WritersAreNotIssued(s: System, step: Step)
    requires Inv(s) && Enabled(s, step) && Writes(step)
    ensures !IsIssued(s, s.flights[step.flight].phase.record.id)
  {
    var flight := s.flights[step.flight];
    assert PhaseOk(s, flight.request, flight.phase);
  }

  lemma IssuedStep(s: System, step: Step, id: string)
    requires Inv(s) && Enabled(s, step) && IsIssued(s, id)
    ensures StaysIssued(s, Apply(s, step), id)
  {
    if Writes(step) {
      WritersAreNotIssued(s, step);
      WritesTouchOneRecord(s, step, id);
    } else if step.Claim? {
      ClaimsLeaveOldRecords(s, step, id);
    } else if !step.Purge? {
      QuietStepsLeaveTheStore(s, step);
    }
  }

  lemma ClaimsLeaveOldRecords(s: System, step: Step, id: string)
    requires Enabled(s, step) && step.Claim? && id in s.store
    ensures Untouched(s, Apply(s, step), id)
  {
  }

  /** `issued` is absorbing: no later call, failure, purge or crash changes the operation. */
  lemma {:induction false} IssuedForEver(states: seq<System>, steps: seq<Step>, from: nat, n: nat, id: string)
    requires IsRun(states, steps) && Inv(states[0]) && from <= n < |states| && IsIssued(states[from], id)
    ensures StaysIssued(states[from], states[n], id)
  {
    if from < n {
      IssuedForEver(states, steps, from, n - 1, id);
      RunKeepsInv(states, steps, n - 1);
      IssuedStep(states[n - 1], steps[n - 1], id);
    }
  }

  /**
   What can become of a call made after the operation was issued: one that asks for another kind
   or another overlap is refused, a matching one gets the same handoff or is told it has expired,
   and no call gets as far as the issuer.
   */
  predicate AnsweredFromTheRecord(request: Request, phase: Phase, id: string, fingerprint: Fingerprint, handoff: Handoff) {
    match phase
    case Claiming => true
    case Replaying(_) => Asks(request, fingerprint)
    case Settled(Delivered(operation, h)) => operation == id && h == handoff && Asks(request, fingerprint)
    case Settled(Rejected(IdempotencyConflict)) => !Asks(request, fingerprint)
    case Settled(Rejected(HandoffExpired)) => Asks(request, fingerprint)
    case Settled(Rejected(StoreUnavailable)) => true
    case Lost => true
    case _ => false
  }

  predicate Asks(request: Request, fingerprint: Fingerprint) {
    request.kind == fingerprint.kind && request.overlap == fingerprint.overlap
  }

  ghost predicate LaterFlightsOk(s: System, first: nat, id: string, fingerprint: Fingerprint, handoff: Handoff) {
    && IsIssued(s, id) && s.store[id].fingerprint == fingerprint && s.handed[id] == handoff
    && forall i :: first <= i < |s.flights| && IsOwner(s.store, id, s.flights[i].request) ==>
         AnsweredFromTheRecord(s.flights[i].request, s.flights[i].phase, id, fingerprint, handoff)
  }

  lemma LaterFlightsStep(s: System, step: Step, first: nat, id: string, fingerprint: Fingerprint, handoff: Handoff)
    requires Inv(s) && Enabled(s, step) && LaterFlightsOk(s, first, id, fingerprint, handoff)
    ensures LaterFlightsOk(Apply(s, step), first, id, fingerprint, handoff)
  {
    var after := Apply(s, step);
    IssuedStep(s, step, id);
    forall i | first <= i < |after.flights| && IsOwner(after.store, id, after.flights[i].request)
      ensures AnsweredFromTheRecord(after.flights[i].request, after.flights[i].phase, id, fingerprint, handoff)
    {
      if i < |s.flights| {
        RequestsAreFixed(s, step, i);
        LaterCallStep(s, step, id, i);
      } else {
        NewFlightsClaim(s, step, i);
      }
    }
  }

  lemma {:induction false} LaterFlightsThroughout(states: seq<System>, from: nat, n: nat, first: nat, id: string,
                                                  fingerprint: Fingerprint, handoff: Handoff)
    requires from <= n < |states| && LaterFlightsOk(states[from], first, id, fingerprint, handoff)
    requires forall k :: from <= k < n && LaterFlightsOk(states[k], first, id, fingerprint, handoff) ==>
               LaterFlightsOk(states[k + 1], first, id, fingerprint, handoff)
    ensures LaterFlightsOk(states[n], first, id, fingerprint, handoff)
  {
    if from < n {
      LaterFlightsThroughout(states, from, n - 1, first, id, fingerprint, handoff);
    }
  }

  lemma LaterCallsAreAnsweredFromTheRecord(states: seq<System>, steps: seq<Step>, from: nat, n: nat, id: string)
    requires IsRun(states, steps) && Inv(states[0]) && from <= n < |states| && IsIssued(states[from], id)
    ensures LaterFlightsOk(states[n], |states[from].flights|, id, states[from].store[id].fingerprint, states[from].handed[id])
  {
    var (first, fingerprint, handoff) := (|states[from].flights|, states[from].store[id].fingerprint, states[from].handed[id]);
    forall k | from <= k < n && LaterFlightsOk(states[k], first, id, fingerprint, handoff)
      ensures LaterFlightsOk(states[k + 1], first, id, fingerprint, handoff)
    {
      RunKeepsInv(states, steps, k);
      LaterFlightsStep(states[k], steps[k], first, id, fingerprint, handoff);
    }
    LaterFlightsThroughout(states, from, n, first, id, fingerprint, handoff);
  }

  lemma RequestsAreFixed(s: System, step: Step, i: nat)
    requires Enabled(s, step) && i < |s.flights|
    ensures i < |Apply(s, step).flights| && Apply(s, step).flights[i].request == s.flights[i].request
  {
  }

  lemma NewFlightsClaim(s: System, step: Step, i: nat)
    requires Enabled(s, step) && |s.flights| <= i < |Apply(s, step).flights|
    ensures Apply(s, step).flights[i].phase == Claiming
  {
  }

  // ---------- what is asked of the issuer, and which calls share a flight ----------

  /** A flight comes to mint in two ways: a first attempt with the overlap its caller asked for, a recovery with none. */
  lemma OverlapsAskedFor(s: System, step: Step, i: nat)
    requires Enabled(s, step) && i < |s.flights| && !s.flights[i].phase.Minting? && Apply(s, step).flights[i].phase.Minting?
    ensures var (request, minting) := (s.flights[i].request, Apply(s, step).flights[i].phase);
            || (step.Claim? && minting.overlap == request.overlap && minting.record.id == step.id
                && forall id :: id in s.store ==>
                     s.store[id].environment != request.environment || s.store[id].idempotencyKey != request.idempotencyKey)
            || (step.Reopen? && minting.overlap == Some(0) && minting.record == s.flights[i].phase.record)
  {
    var request := s.flights[i].request;
    if step.Claim? && !Owned(s.store, request.environment, request.idempotencyKey) {
      forall id | id in s.store
        ensures s.store[id].environment != request.environment || s.store[id].idempotencyKey != request.idempotencyKey
      {
        assert !Owns(s.store, id, request.environment, request.idempotencyKey);
      }
    }
  }

  /** And it waits for the issuer with the overlap it came with. */
  lemma OverlapsAreKept(s: System, step: Step, i: nat)
    requires Enabled(s, step) && i < |s.flights| && !s.flights[i].phase.Awaiting? && Apply(s, step).flights[i].phase.Awaiting?
    ensures s.flights[i].phase.Minting? && Apply(s, step).flights[i].phase.overlap == s.flights[i].phase.overlap
    ensures Apply(s, step).flights[i].phase.record == s.flights[i].phase.record
  {
  }

  /**
   A call joins a flight that is under way if and only if one is filed that asks for the same under
   the same key; any other call gets a flight of its own, and a flight that ends is filed no longer.
   */
  lemma CallsShareExactly(s: System, request: Request)
    requires Inv(s)
    ensures var after := Apply(s, Call(request));
            if exists key :: key in s.inFlight && key.environment == request.environment && key.idempotencyKey == request.idempotencyKey
                             && key.fingerprint.kind == request.kind && key.fingerprint.overlap == request.overlap
            then after == s
            else after.flights == s.flights + [Flight(request, Claiming)]
    ensures (exists i :: 0 <= i < |s.flights| && Running(s.flights[i].phase) && SameKey(s.flights[i].request, request)
                         && s.flights[i].request.kind == request.kind && s.flights[i].request.overlap == request.overlap) ==>
              Apply(s, Call(request)) == s
    ensures forall key, i :: key in s.inFlight && s.inFlight[key] == i && Enabled(s, Finish(i)) ==>
              Apply(s, Finish(i)).inFlight == s.inFlight - {key}
  {
    forall key | key in s.inFlight ensures key.fingerprint.environment == key.environment {
      assert KeyOf(s.flights[s.inFlight[key]].request) == key;
    }
  }

  /** A store call that fails, or whose acknowledgement is lost, ends its flight; so do a refused revocation and a refused mint. */
  lemma FailuresReachTheCaller(s: System, step: Step)
    requires Enabled(s, step)
    ensures (step.Claim? || step.Reopen? || step.RecordKey? || step.Complete?) && !step.acknowledged ==>
              Apply(s, step).flights[step.flight].phase == Settled(Rejected(StoreUnavailable))
    ensures step.StoreRejects? ==>
              Apply(s, step).flights[step.flight].phase == Settled(Rejected(StoreUnavailable)) && Apply(s, step).store == s.store
    ensures step.RevocationRejected? ==>
              Apply(s, step).flights[step.flight].phase == Settled(Rejected(RevocationFailed)) && Apply(s, step).store == s.store
    ensures step.RecordFailure? ==>
              var (id, message) := (s.flights[step.flight].phase.record.id, s.flights[step.flight].phase.message);
              && Apply(s, step).flights[step.flight].phase == Settled(Rejected(IssuerFailed))
              && Apply(s, step).store[id].state.Failed? && Apply(s, step).store[id].lastError == Some(message)
  {
  }

  /** A purge erases exactly the envelopes whose retention is over; the clock moves on, and nothing else moves with it. */
  lemma PurgesAndTicks(s: System, now: int)
    requires s.now <= now
    ensures Apply(s, Tick(now)) == s.(now := now)
    ensures var after := Apply(s, Purge);
            && after == s.(store := after.store) && after.store.Keys == s.store.Keys
            && forall id :: id in s.store ==>
                 var (r, over) := (s.store[id], s.store[id].handoffExpires.Some? && s.store[id].handoffExpires.value <= s.now);
                 after.store[id] == if over then r.(envelope := None) else r
  {
  }

  // ---------- a record says what was asked for ----------

  /** What a record says of the call that made it. */
  ghost predicate MadeBy(r: Record, request: Request) {
    && r.environment == request.environment && r.idempotencyKey == request.idempotencyKey && r.actor == request.subject
    && r.fingerprint.environment == request.environment && r.fingerprint.kind == request.kind
    && r.fingerprint.overlap == request.overlap
  }

  lemma OriginsStay(s: System, step: Step, id: string)
    requires Enabled(s, step) && id in s.store
    ensures id in Apply(s, step).store
    ensures var (before, after) := (s.store[id], Apply(s, step).store[id]);
            && after.environment == before.environment && after.idempotencyKey == before.idempotencyKey
            && after.fingerprint == before.fingerprint && after.actor == before.actor
  {
    if Writes(step) && id != s.flights[step.flight].phase.record.id {
      WritesTouchOneRecord(s, step, id);
    } else if step.Claim? {
      ClaimsLeaveOldRecords(s, step, id);
    } else if !Writes(step) && !step.Purge? {
      QuietStepsLeaveTheStore(s, step);
    }
  }

  lemma NewRecordsAreClaimed(s: System, step: Step, id: string)
    requires Enabled(s, step) && id !in s.store && id in Apply(s, step).store
    ensures step.Claim? && step.id == id && MadeBy(Apply(s, step).store[id], s.flights[step.flight].request)
  {
    if Writes(step) {
      WritesTouchOneRecord(s, step, id);
    } else if !step.Claim? && !step.Purge? {
      QuietStepsLeaveTheStore(s, step);
    }
  }

  /** In every run each record was made by a call, and says for ever what that call asked for. */
  lemma {:induction false} RecordsComeFromCalls(states: seq<System>, steps: seq<Step>, n: nat, id: string) returns (i: nat)
    requires IsRun(states, steps) && states[0].store == map[] && n < |states| && id in states[n].store
    ensures i < |states[n].flights| && MadeBy(states[n].store[id], states[n].flights[i].request)
  {
    var (s, step) := (states[n - 1], steps[n - 1]);
    if id in s.store {
      i := RecordsComeFromCalls(states, steps, n - 1, id);
      OriginsStay(s, step, id);
    } else {
      NewRecordsAreClaimed(s, step, id);
      i := step.flight;
    }
    RequestsAreFixed(s, step, i);
  }

  lemma LaterClaim(s: System, step: Step, id: string, i: nat)
    requires Inv(s) && Enabled(s, step) && IsIssued(s, id) && step.Claim? && step.flight == i
    requires IsOwner(s.store, id, s.flights[i].request)
    ensures AnsweredFromTheRecord(s.flights[i].request, Apply(s, step).flights[i].phase, id, s.store[id].fingerprint, s.handed[id])
  {
    var request := s.flights[i].request;
    assert Owned(s.store, request.environment, request.idempotencyKey);
    assert SameRequest(s.store[id], s.store[OwnerOf(s.store, request)]);
    assert RecordOk(s, id);
  }

  lemma LaterReplay(s: System, step: Step, id: string, i: nat)
    requires Inv(s) && Enabled(s, step) && IsIssued(s, id) && step.Replay? && step.flight == i
    requires IsOwner(s.store, id, s.flights[i].request)
    ensures AnsweredFromTheRecord(s.flights[i].request, Apply(s, step).flights[i].phase, id, s.store[id].fingerprint, s.handed[id])
  {
    assert PhaseOk(s, s.flights[i].request, s.flights[i].phase);
    ReplayOutcome(s, i);
    assert SameRequest(s.store[id], s.store[s.flights[i].phase.record.id]);
  }

  /** Other steps leave such a flight alone, lose it in a crash, or tell it that the store failed. */
  lemma LaterOther(s: System, step: Step, i: nat)
    requires Enabled(s, step) && i < |s.flights|
    requires s.flights[i].phase.Claiming? || s.flights[i].phase.Replaying? || !Running(s.flights[i].phase)
    requires (step.Claim? || step.Replay?) ==> step.flight != i
    ensures LeftAlone(s.flights[i].phase, Apply(s, step).flights[i].phase)
  {
  }

  predicate LeftAlone(phase: Phase, after: Phase) {
    after == phase || after.Lost? || after == Settled(Rejected(StoreUnavailable))
  }

  lemma StillAnswered(request: Request, phase: Phase, after: Phase, id: string, fingerprint: Fingerprint, handoff: Handoff)
    requires AnsweredFromTheRecord(request, phase, id, fingerprint, handoff)
    ensures phase.Claiming? || phase.Replaying? || !Running(phase)
    ensures LeftAlone(phase, after) ==> AnsweredFromTheRecord(request, after, id, fingerprint, handoff)
  {
  }

  lemma LaterCallStep(s: System, step: Step, id: string, i: nat)
    requires Inv(s) && Enabled(s, step) && IsIssued(s, id) && i < |s.flights|
    requires IsOwner(s.store, id, s.flights[i].request)
    requires AnsweredFromTheRecord(s.flights[i].request, s.flights[i].phase, id, s.store[id].fingerprint, s.handed[id])
    ensures AnsweredFromTheRecord(s.flights[i].request, Apply(s, step).flights[i].phase, id, s.store[id].fingerprint, s.handed[id])
  {
    if step.Claim? && step.flight == i {
      LaterClaim(s, step, id, i);
    } else if step.Replay? && step.flight == i {
      LaterReplay(s, step, id, i);
    } else {
      var (request, phase) := (s.flights[i].request, s.flights[i].phase);
      var after := Apply(s, step).flights[i].phase;
      StillAnswered(request, phase, after, id, s.store[id].fingerprint, s.handed[id]);
      LaterOther(s, step, i);
    }
  }

  /** The handoff is served for exactly its retention period, and the answer is 410 ever after. */
  lemma ReplayOutcome(s: System, i: nat)
    requires Inv(s) && Enabled(s, Replay(i))
    ensures var id := s.flights[i].phase.record.id;
            && IsIssued(s, id)
            && Apply(s, Replay(i)).flights[i].phase
               == Settled(if s.now < s.handed[id].issuedAt + HANDOFF_RETENTION_MS
                          then Delivered(id, s.handed[id]) else Rejected(HandoffExpired))
  {
    assert PhaseOk(s, s.flights[i].request, s.flights[i].phase);
  }
}
