/**
 The credential service and one environment's issuer, stepping together: the service asks the
 issuer for a key, waits for the answer, and revokes the key an earlier attempt left behind.
 Over every run in which nothing else issues keys on the environment, one operation never has
 two live keys, and once it is issued the only live one is the one sealed in its envelope.
 */
module CredentialSafety {
  import opened Prelude
  import opened Expiry
  import opened Handoffs
  import opened CredentialStore
  import opened CredentialService
  import opened CredentialReplay
  import K = TenantKeys
  import I = MerchantIssuer

  /** `environment` is the environment whose issuer is followed. */
  datatype World = World(environment: string, service: System, issuer: I.Issuer)

  datatype Move =
    | Service(step: Step)                            // does not involve this issuer
    | Issuing(inner: I.Step)                         // does not involve the service
    | Ask(flight: nat)                               // issueMerchantCredential is called
    | Told(flight: nat, credential: Credential)      // ... and answers
    | Denied(flight: nat, message: string)           // ... or fails
    | RevokeOrphan(flight: nat)                      // revokeMerchantKey succeeds
    | CrashBoth

  predicate Involves(w: World, step: Step) {
    && (step.Enqueue? || step.Answer? || step.Refusal? || step.Revoked?)
    && step.flight < |w.service.flights| && w.service.flights[step.flight].request.environment == w.environment
  }

  predicate OnTime(step: I.Step, now: int) {
    && (step.Rotation? || step.UnsavedRotation? || step.TenantRotation? ==> step.now == now)
  }

  predicate Waits(w: World, i: nat) {
    && i < |w.service.flights| && w.service.flights[i].phase.Awaiting?
    && w.service.flights[i].request.environment == w.environment
    && w.service.flights[i].phase.ticket < |w.issuer.tickets|
  }

  function TicketOf(w: World, i: nat): I.Ticket
    requires Waits(w, i)
  {
    w.issuer.tickets[w.service.flights[i].phase.ticket]
  }

  ghost predicate Enabled(w: World, move: Move) {
    match move
    case Service(step) =>
      && CredentialService.Enabled(w.service, step) && !step.Crash? && !Involves(w, step)
      // Operation ids are random: no key was ever minted for a new one.
      && (step.Claim? ==> forall key :: key in w.issuer.keys ==> w.issuer.keys[key].operation != Some(step.id))
    case Issuing(inner) =>
      I.Enabled(w.issuer, inner) && !inner.Request? && !inner.Crash? && OnTime(inner, w.service.now)
    case Ask(i) =>
      && i < |w.service.flights| && w.service.flights[i].phase.Minting?
      && w.service.flights[i].request.environment == w.environment
    case Told(i, credential) =>
      && Waits(w, i) && TicketOf(w, i).stage == I.Settled(I.Minted(credential.apiKeyId))
      && credential.environment == w.environment
    case Denied(i, _) => Waits(w, i) && TicketOf(w, i).stage == I.Settled(I.Refused)
    case RevokeOrphan(i) =>
      && i < |w.service.flights| && w.service.flights[i].phase.Revoking?
      && w.service.flights[i].request.environment == w.environment
      && w.service.flights[i].phase.record.issuedKey.Some?
    case CrashBoth => true
  }

  ghost function Apply(w: World, move: Move): World
    requires Enabled(w, move)
  {
    match move
    case Service(step) => w.(service := CredentialService.Apply(w.service, step))
    case Issuing(inner) => w.(issuer := I.Apply(w.issuer, inner))
    case Ask(i) =>
      var Minting(record, overlap) := w.service.flights[i].phase;
      w.(service := CredentialService.Apply(w.service, Enqueue(i, |w.issuer.tickets|)),
         issuer := I.Apply(w.issuer, I.Request(record.id, overlap)))
    case Told(i, credential) => w.(service := CredentialService.Apply(w.service, Answer(i, credential)))
    case Denied(i, message) => w.(service := CredentialService.Apply(w.service, Refusal(i, message)))
    case RevokeOrphan(i) =>
      w.(service := CredentialService.Apply(w.service, Revoked(i)),
         issuer := I.Apply(w.issuer, I.Revocation(w.service.flights[i].phase.record.issuedKey.value)))
    case CrashBoth =>
      w.(service := CredentialService.Apply(w.service, CredentialService.Step.Crash), issuer := I.Apply(w.issuer, I.Step.Crash))
  }

  /** Nothing else issues on the environment: one idempotency key, and no rotation by the tenant. */
  predicate Undisturbed(w: World, move: Move, key: string) {
    match move
    case Service(Call(request)) => request.environment == w.environment ==> request.idempotencyKey == key
    case Issuing(inner) => !inner.UnsavedRotation? && !inner.TenantRotation?
    case _ => true
  }

  ghost predicate IsUndisturbedRun(worlds: seq<World>, moves: seq<Move>, key: string) {
    && |worlds| == |moves| + 1
    && forall n :: 0 <= n < |moves| ==>
         Enabled(worlds[n], moves[n]) && worlds[n + 1] == Apply(worlds[n], moves[n]) && Undisturbed(worlds[n], moves[n], key)
  }

  // ---------- the invariant ----------

  predicate Minted(w: World, id: string) {
    id in w.issuer.keys && w.issuer.keys[id].operation.Some?
  }

  predicate LiveMinted(w: World, id: string) {
    Minted(w, id) && K.Live(w.issuer.keys[id], w.service.now)
  }

  /** The key was minted for the operation, lives until somebody revokes it, and is the only one that may be live. */
  ghost predicate Sole(w: World, id: string, operation: string) {
    && id in w.issuer.keys && w.issuer.keys[id].operation == Some(operation)
    && w.issuer.keys[id].name == K.MERCHANT_KEY_NAME && w.issuer.keys[id].expires.None?
    && forall other :: LiveMinted(w, other) ==> other == id
  }

  ghost predicate NothingMinted(w: World) {
    forall id :: !Minted(w, id)
  }

  /** Every live key the service had minted stands, so a zero-overlap rotation finds it. */
  ghost predicate LiveKeysStand(w: World) {
    forall id :: LiveMinted(w, id) ==> K.IsStanding(w.issuer.keys, id)
  }

  ghost predicate OneOperation(w: World, key: string) {
    && (forall i :: 0 <= i < |w.service.flights| && w.service.flights[i].request.environment == w.environment ==>
          w.service.flights[i].request.idempotencyKey == key)
    && (forall id :: id in w.service.store && w.service.store[id].environment == w.environment ==>
          w.service.store[id].idempotencyKey == key)
    && (forall id :: Minted(w, id) ==>
          w.issuer.keys[id].operation.value in w.service.store
          && w.service.store[w.issuer.keys[id].operation.value].environment == w.environment)
  }

  ghost predicate FlightOk(w: World, flight: Flight) {
    flight.request.environment == w.environment ==>
      match flight.phase
      case Minting(_, overlap) => overlap != Some(0) ==> NothingMinted(w)
      case Awaiting(r, overlap, t) =>
        && t < |w.issuer.tickets| && w.issuer.tickets[t].operation == r.id && w.issuer.tickets[t].overlap == overlap
        && (match w.issuer.tickets[t].stage
            case Settled(Minted(id)) => Sole(w, id, r.id)
            case Settled(_) => true
            case _ => overlap != Some(0) ==> NothingMinted(w))
      case Recording(r, credential) => Sole(w, credential.apiKeyId, r.id)
      case _ => true
  }

  ghost predicate AwaitedBy(w: World, t: nat, i: nat) {
    Waits(w, i) && w.service.flights[i].phase.ticket == t
  }

  /** A ticket that is not settled has its flight waiting for it. */
  ghost predicate TicketsAwaited(w: World) {
    forall t :: 0 <= t < |w.issuer.tickets| && !w.issuer.tickets[t].stage.Settled? ==> exists i: nat :: AwaitedBy(w, t, i)
  }

  ghost predicate RecordedKeyOk(w: World, id: string)
    requires id in w.service.store
  {
    var r := w.service.store[id];
    r.environment == w.environment && r.issuedKey.Some? ==> Sole(w, r.issuedKey.value, id)
  }

  ghost predicate RecordedKeysOk(w: World) {
    forall id :: id in w.service.store ==> RecordedKeyOk(w, id)
  }

  ghost predicate FlightsOk(w: World) {
    forall i :: 0 <= i < |w.service.flights| ==> FlightOk(w, w.service.flights[i])
  }

  ghost predicate Safe(w: World, key: string) {
    && Inv(w.service) && I.ChainInv(w.issuer) && I.KeysInv(w.issuer)
    && OneOperation(w, key) && LiveKeysStand(w) && FlightsOk(w)
    && TicketsAwaited(w) && RecordedKeysOk(w)
  }

  // ---------- steps of the service alone ----------

  ghost predicate IssuerKept(w: World, after: World) {
    after.environment == w.environment && after.issuer == w.issuer && w.service.now <= after.service.now
  }

  lemma KeptFlight(w: World, after: World, flight: Flight)
    requires IssuerKept(w, after) && FlightOk(w, flight)
    ensures FlightOk(after, flight)
  {
    assert forall id :: LiveMinted(after, id) ==> LiveMinted(w, id);
    assert forall id :: Minted(after, id) ==> Minted(w, id);
  }

  lemma KeptKeys(w: World, after: World)
    requires IssuerKept(w, after) && LiveKeysStand(w)
    ensures LiveKeysStand(after)
    ensures forall id, operation :: Sole(w, id, operation) ==> Sole(after, id, operation)
  {
    assert forall id :: LiveMinted(after, id) ==> LiveMinted(w, id);
  }

  predicate Passive(phase: Phase) {
    !phase.Minting? && !phase.Awaiting? && !phase.Recording?
  }

  /** A flight as it was, or one that says nothing about keys, or a first attempt or a recovery about to mint. */
  ghost predicate Harmless(w: World, after: System, i: nat)
    requires i < |after.flights|
  {
    var phase := after.flights[i].phase;
    if i < |w.service.flights| && after.flights[i] == w.service.flights[i] then true
    else Passive(phase) || (phase.Minting? && (phase.overlap != Some(0) ==> NothingMinted(w)))
  }

  lemma UnownedMeansNothingMinted(w: World, key: string, request: Request)
    requires OneOperation(w, key) && request.environment == w.environment && request.idempotencyKey == key
    requires !Owned(w.service.store, request.environment, request.idempotencyKey)
    ensures NothingMinted(w)
  {
    forall id ensures !Minted(w, id) {
      if Minted(w, id) {
        assert Owns(w.service.store, w.issuer.keys[id].operation.value, request.environment, request.idempotencyKey);
      }
    }
  }

  lemma ClaimFlight(w: World, step: Step, key: string, i: nat)
    requires OneOperation(w, key) && CredentialService.Enabled(w.service, step) && step.Claim? && i < |w.service.flights|
    requires w.service.flights[i].request.environment == w.environment
    ensures Harmless(w, CredentialService.Apply(w.service, step), i)
  {
    var request := w.service.flights[i].request;
    if step.flight == i && !Owned(w.service.store, request.environment, request.idempotencyKey) {
      UnownedMeansNothingMinted(w, key, request);
    }
  }

  lemma OtherFlight(w: World, step: Step, i: nat)
    requires Enabled(w, Service(step)) && !step.Claim? && i < |CredentialService.Apply(w.service, step).flights|
    requires CredentialService.Apply(w.service, step).flights[i].request.environment == w.environment
    ensures Harmless(w, CredentialService.Apply(w.service, step), i)
  {
  }

  lemma ServiceFlight(w: World, step: Step, key: string, i: nat)
    requires OneOperation(w, key) && Enabled(w, Service(step)) && i < |Apply(w, Service(step)).service.flights|
    requires Apply(w, Service(step)).service.flights[i].request.environment == w.environment
    ensures Harmless(w, Apply(w, Service(step)).service, i)
  {
    if step.Claim? {
      ClaimFlight(w, step, key, i);
    } else {
      OtherFlight(w, step, i);
    }
  }

  lemma ServiceKeepsWaiting(w: World, step: Step, t: nat, i: nat)
    requires Enabled(w, Service(step)) && AwaitedBy(w, t, i)
    ensures AwaitedBy(Apply(w, Service(step)), t, i)
  {
  }

  /** Requests and the owners of idempotency keys never change; new ones come from `Call` and `Claim`. */
  lemma ServiceKeepsOneOperation(w: World, step: Step, key: string)
    requires Safe(w, key) && Enabled(w, Service(step)) && Undisturbed(w, Service(step), key)
    ensures OneOperation(Apply(w, Service(step)), key)
  {
    var after := Apply(w, Service(step));
    forall i | 0 <= i < |after.service.flights| && after.service.flights[i].request.environment == w.environment
      ensures after.service.flights[i].request.idempotencyKey == key
    {
      if i < |w.service.flights| {
        RequestsAreFixed(w.service, step, i);
      }
    }
    forall id | id in after.service.store && after.service.store[id].environment == w.environment
      ensures after.service.store[id].idempotencyKey == key
    {
      StoreGrows(w.service, step, id);
    }
    forall id | Minted(after, id)
      ensures var operation := after.issuer.keys[id].operation.value;
              operation in after.service.store && after.service.store[operation].environment == w.environment
    {
      assert Minted(w, id);
      StoreGrows(w.service, step, w.issuer.keys[id].operation.value);
    }
  }

  lemma StoreGrows(s: System, step: Step, id: string)
    requires Inv(s) && CredentialService.Enabled(s, step)
    ensures var after := CredentialService.Apply(s, step);
            && after.store.Keys >= s.store.Keys
            && (id in s.store ==> SameRequest(after.store[id], s.store[id]))
            && (id in after.store && id !in s.store ==>
                  step.Claim? && step.flight < |s.flights|
                  && after.store[id] == NewRecord(s.flights[step.flight].request, step.id, s.now))
  {
    if Writes(step) {
      assert PhaseOk(s, s.flights[step.flight].request, s.flights[step.flight].phase);
      WriteKeepsRequest(s, step);
      if id != s.flights[step.flight].phase.record.id {
        WritesTouchOneRecord(s, step, id);
      }
    } else if !step.Claim? && !step.Purge? {
      QuietStepsLeaveTheStore(s, step);
    }
  }

  lemma WriteKeepsRequest(s: System, step: Step)
    requires CredentialService.Enabled(s, step) && Writes(step)
    ensures var id := s.flights[step.flight].phase.record.id;
            var after := CredentialService.Apply(s, step);
            after.store.Keys == s.store.Keys && SameRequest(after.store[id], s.store[id])
  {
    match step
    case Reopen(_, _) =>
    case RecordFailure(_) =>
    case RecordKey(_, _) =>
    case Complete(_, _, _) =>
  }

  /** The key id of a record changes only to the key its own flight was just given, or to none. */
  lemma ServiceRecordsKeys(w: World, step: Step, key: string, id: string)
    requires Safe(w, key) && Enabled(w, Service(step)) && id in Apply(w, Service(step)).service.store
    ensures RecordedKeyOk(Apply(w, Service(step)), id)
  {
    ClockStep(w.service, step);
    KeptKeys(w, Apply(w, Service(step)));
    StoreGrows(w.service, step, id);
    if id in w.service.store {
      assert RecordedKeyOk(w, id);
      if Writes(step) {
        WriterRecordsKeys(w, step, id);
      } else if step.Claim? {
        ClaimsLeaveOldRecords(w.service, step, id);
      } else if !step.Purge? {
        QuietStepsLeaveTheStore(w.service, step);
      }
    }
  }

  lemma WriterRecordsKeys(w: World, step: Step, id: string)
    requires Inv(w.service) && FlightsOk(w) && RecordedKeysOk(w) && id in w.service.store
    requires CredentialService.Enabled(w.service, step) && Writes(step)
    ensures var r := CredentialService.Apply(w.service, step).store[id];
            r.environment == w.environment && r.issuedKey.Some? ==> Sole(w, r.issuedKey.value, id)
  {
    var flight := w.service.flights[step.flight];
    assert PhaseOk(w.service, flight.request, flight.phase) && FlightOk(w, flight) && RecordedKeyOk(w, id);
    StoreGrows(w.service, step, id);
    if id == flight.phase.record.id {
      WrittenKey(w.service, step);
    } else {
      WritesTouchOneRecord(w.service, step, id);
    }
  }

  lemma WrittenKey(s: System, step: Step)
    requires Inv(s) && CredentialService.Enabled(s, step) && Writes(step)
    ensures var id := s.flights[step.flight].phase.record.id;
            var after := CredentialService.Apply(s, step);
            && id in after.store
            && after.store[id].issuedKey ==
               (if step.Reopen? then None
                else if step.RecordKey? then Some(s.flights[step.flight].phase.credential.apiKeyId)
                else s.store[id].issuedKey)
  {
    assert PhaseOk(s, s.flights[step.flight].request, s.flights[step.flight].phase);
    match step
    case Reopen(_, _) =>
    case RecordFailure(_) =>
    case RecordKey(_, _) =>
    case Complete(_, _, _) =>
  }

  lemma ServiceIsSafe(w: World, step: Step, key: string)
    requires Safe(w, key) && Enabled(w, Service(step)) && Undisturbed(w, Service(step), key)
    ensures Safe(Apply(w, Service(step)), key)
  {
    var after := Apply(w, Service(step));
    StepKeepsInv(w.service, step);
    ClockStep(w.service, step);
    ServiceKeepsOneOperation(w, step, key);
    KeptKeys(w, after);
    forall i | 0 <= i < |after.service.flights|
      ensures FlightOk(after, after.service.flights[i])
    {
      ServiceFlightIsOk(w, step, key, i);
    }
    forall t | 0 <= t < |after.issuer.tickets| && !after.issuer.tickets[t].stage.Settled?
      ensures exists i: nat :: AwaitedBy(after, t, i)
    {
      var i: nat :| AwaitedBy(w, t, i);
      ServiceKeepsWaiting(w, step, t, i);
    }
    forall id | id in after.service.store
      ensures RecordedKeyOk(after, id)
    {
      ServiceRecordsKeys(w, step, key, id);
    }
  }

  lemma ClockStep(s: System, step: Step)
    requires CredentialService.Enabled(s, step)
    ensures s.now <= CredentialService.Apply(s, step).now
  {
  }

  lemma NewPhase(w: World, after: World, flight: Flight)
    requires IssuerKept(w, after)
    ensures Passive(flight.phase) ==> FlightOk(after, flight)
    ensures flight.phase.Minting? && (flight.phase.overlap != Some(0) ==> NothingMinted(w)) ==> FlightOk(after, flight)
  {
    assert forall id :: Minted(after, id) ==> Minted(w, id);
  }

  lemma ServiceFlightIsOk(w: World, step: Step, key: string, i: nat)
    requires Safe(w, key) && Enabled(w, Service(step)) && Undisturbed(w, Service(step), key)
    requires i < |Apply(w, Service(step)).service.flights|
    ensures FlightOk(Apply(w, Service(step)), Apply(w, Service(step)).service.flights[i])
  {
    var after := Apply(w, Service(step));
    ClockStep(w.service, step);
    if after.service.flights[i].request.environment == w.environment {
      ServiceFlight(w, step, key, i);
      NewPhase(w, after, after.service.flights[i]);
      if i < |w.service.flights| && after.service.flights[i] == w.service.flights[i] {
        KeptFlight(w, after, w.service.flights[i]);
      }
    }
  }

  // ---------- steps of the issuer alone ----------

  /** The keys the service minted are the same, and no more of them are live. */
  ghost predicate NoNewKeys(w: World, after: World) {
    && after.environment == w.environment && after.service == w.service
    && (forall id :: Minted(after, id) <==> Minted(w, id))
    && (forall id :: Minted(w, id) ==>
          after.issuer.keys[id] == w.issuer.keys[id] || after.issuer.keys[id] == w.issuer.keys[id].(active := false))
  }

  lemma ShrinkingKeys(w: World, after: World)
    requires NoNewKeys(w, after) && LiveKeysStand(w)
    ensures LiveKeysStand(after) && (NothingMinted(w) ==> NothingMinted(after))
    ensures forall id, operation :: Sole(w, id, operation) ==> Sole(after, id, operation)
  {
    assert forall id :: LiveMinted(after, id) ==> LiveMinted(w, id) && after.issuer.keys[id] == w.issuer.keys[id];
    forall id, operation | Sole(w, id, operation) ensures Sole(after, id, operation) {
      assert Minted(w, id);
    }
  }

  /** A step that answers nobody with a key: tickets move on, keys are revoked, the tenant adds keys of its own. */
  lemma BarrenStepIsSafe(w: World, after: World, key: string)
    requires Safe(w, key) && NoNewKeys(w, after) && I.ChainInv(after.issuer) && I.KeysInv(after.issuer)
    requires |after.issuer.tickets| == |w.issuer.tickets|
    requires forall t :: 0 <= t < |w.issuer.tickets| ==>
               && after.issuer.tickets[t].(stage := w.issuer.tickets[t].stage) == w.issuer.tickets[t]
               && (w.issuer.tickets[t].stage.Settled? ==> after.issuer.tickets[t] == w.issuer.tickets[t])
               && (after.issuer.tickets[t].stage.Settled? && !w.issuer.tickets[t].stage.Settled? ==>
                     after.issuer.tickets[t].stage.outcome.Refused?)
    ensures Safe(after, key)
  {
    ShrinkingKeys(w, after);
    forall i | 0 <= i < |after.service.flights|
      ensures FlightOk(after, after.service.flights[i])
    {
      assert FlightOk(w, w.service.flights[i]);
    }
    forall t | 0 <= t < |after.issuer.tickets| && !after.issuer.tickets[t].stage.Settled?
      ensures exists i: nat :: AwaitedBy(after, t, i)
    {
      var i: nat :| AwaitedBy(w, t, i);
      assert AwaitedBy(after, t, i);
    }
    forall id | id in after.service.store ensures RecordedKeyOk(after, id) {
      assert RecordedKeyOk(w, id);
    }
  }

  /** The flight whose ticket is being served is the only one past the check, and its record names no key yet. */
  lemma ServedAlone(w: World, key: string, t: nat, i: nat)
    requires Safe(w, key) && AwaitedBy(w, t, i)
    ensures var r := w.service.flights[i].phase.record;
            && Blank(w.service, w.service.flights[i].request, r)
            && (forall j :: 0 <= j < |w.service.flights| ==>
                  (w.service.flights[j].request.environment == w.environment && PastCheck(w.service.flights[j].phase) ==> j == i))
            && (forall id :: id in w.service.store && w.service.store[id].environment == w.environment ==> id == r.id)
  {
    assert PhaseOk(w.service, w.service.flights[i].request, w.service.flights[i].phase);
    forall j | 0 <= j < |w.service.flights| && w.service.flights[j].request.environment == w.environment
               && PastCheck(w.service.flights[j].phase)
      ensures j == i
    {
      OnePastTheCheck(w.service, i, j);
    }
    var r := w.service.flights[i].phase.record;
    forall id | id in w.service.store && w.service.store[id].environment == w.environment
      ensures id == r.id
    {
      assert SameRequest(w.service.store[id], w.service.store[r.id]);
    }
  }

  /** A ticket is answered with a new standing key and every key minted before is dead. */
  ghost predicate AnsweredWith(w: World, after: World, t: nat, newKey: string) {
    && t < |w.issuer.tickets| && !w.issuer.tickets[t].stage.Settled? && newKey !in w.issuer.keys
    && after.environment == w.environment && after.service == w.service && |after.issuer.tickets| == |w.issuer.tickets|
    && (forall u :: 0 <= u < |w.issuer.tickets| && u != t ==> after.issuer.tickets[u] == w.issuer.tickets[u])
    && after.issuer.tickets[t].(stage := w.issuer.tickets[t].stage) == w.issuer.tickets[t]
    && (after.issuer.tickets[t].stage == I.Settled(I.Minted(newKey)) || after.issuer.tickets[t].stage == I.Settled(I.Refused))
    && newKey in after.issuer.keys
    && after.issuer.keys[newKey] == K.ApiKey(K.MERCHANT_KEY_NAME, true, None, Some(w.issuer.tickets[t].operation))
    && (forall id :: id != newKey && Minted(after, id) ==>
          Minted(w, id) && after.issuer.keys[id].operation == w.issuer.keys[id].operation)
    && (forall id :: LiveMinted(after, id) ==> id == newKey)
  }

  lemma AnsweredFlights(w: World, after: World, key: string, t: nat, newKey: string, served: nat)
    requires Safe(w, key) && AnsweredWith(w, after, t, newKey) && AwaitedBy(w, t, served)
    ensures FlightsOk(after)
  {
    ServedAlone(w, key, t, served);
    assert FlightOk(w, w.service.flights[served]);
    assert Sole(after, newKey, w.issuer.tickets[t].operation);
    forall i | 0 <= i < |after.service.flights| ensures FlightOk(after, after.service.flights[i]) {
      assert FlightOk(w, w.service.flights[i]);
    }
  }

  lemma AnsweredTickets(w: World, after: World, t: nat, newKey: string)
    requires TicketsAwaited(w) && AnsweredWith(w, after, t, newKey)
    ensures TicketsAwaited(after)
  {
    forall u | 0 <= u < |after.issuer.tickets| && !after.issuer.tickets[u].stage.Settled?
      ensures exists i: nat :: AwaitedBy(after, u, i)
    {
      var i: nat :| AwaitedBy(w, u, i);
      assert AwaitedBy(after, u, i);
    }
  }

  lemma AnsweredRecords(w: World, after: World, key: string, t: nat, newKey: string, served: nat)
    requires Safe(w, key) && AnsweredWith(w, after, t, newKey) && AwaitedBy(w, t, served)
    ensures RecordedKeysOk(after) && OneOperation(after, key) && LiveKeysStand(after)
  {
    ServedAlone(w, key, t, served);
    assert FlightOk(w, w.service.flights[served]);
  }

  lemma MintIsSafe(w: World, after: World, key: string, t: nat, newKey: string)
    requires Safe(w, key) && AnsweredWith(w, after, t, newKey) && I.ChainInv(after.issuer) && I.KeysInv(after.issuer)
    ensures Safe(after, key)
  {
    var served: nat :| AwaitedBy(w, t, served);
    AnsweredFlights(w, after, key, t, newKey, served);
    AnsweredTickets(w, after, t, newKey);
    AnsweredRecords(w, after, key, t, newKey, served);
  }

  lemma CreationFindsNone(w: World, inner: I.Step)
    requires LiveKeysStand(w) && I.KeysInv(w.issuer) && Enabled(w, Issuing(inner)) && (inner.Creation? || inner.UnsavedCreation?)
    ensures forall id :: LiveMinted(Apply(w, Issuing(inner)), id) ==> id == inner.newKey
  {
    assert forall id :: LiveMinted(w, id) ==> K.IsStanding(w.issuer.keys, id);
    assert forall id :: LiveMinted(Apply(w, Issuing(inner)), id) && id != inner.newKey ==> LiveMinted(w, id);
  }

  lemma CreationIsSafe(w: World, key: string, inner: I.Step)
    requires Safe(w, key) && Enabled(w, Issuing(inner)) && (inner.Creation? || inner.UnsavedCreation?)
    ensures Safe(Apply(w, Issuing(inner)), key)
  {
    var after := Apply(w, Issuing(inner));
    I.ChainStep(w.issuer, inner);
    I.KeysStep(w.issuer, inner);
    CreationFindsNone(w, inner);
    MintIsSafe(w, after, key, inner.ticket, inner.newKey);
  }

  lemma RotationKillsTheOld(w: World, inner: I.Step)
    requires FlightsOk(w) && TicketsAwaited(w) && LiveKeysStand(w) && I.KeysInv(w.issuer) && Enabled(w, Issuing(inner)) && inner.Rotation?
    requires I.Attempt(w.issuer, inner.ticket, inner.newKey, inner.now).Ok?
    ensures forall id :: LiveMinted(Apply(w, Issuing(inner)), id) ==> id == inner.newKey
  {
    var after := Apply(w, Issuing(inner));
    var ticket := w.issuer.tickets[inner.ticket];
    var standing := ticket.stage.standing;
    var served: nat :| AwaitedBy(w, inner.ticket, served);
    assert FlightOk(w, w.service.flights[served]);
    // With zero overlap the replaced key ends now; otherwise it is not one of the service's keys.
    assert Minted(w, standing) ==> ticket.overlap == Some(0);
    assert ticket.overlap == Some(0) ==> after.issuer.keys[standing].expires == Some(inner.now);
    assert forall id :: LiveMinted(after, id) && id != inner.newKey && id != standing ==> LiveMinted(w, id);
    assert !LiveMinted(after, standing);
  }

  lemma RotationAnswers(w: World, inner: I.Step)
    requires FlightsOk(w) && TicketsAwaited(w) && LiveKeysStand(w) && I.KeysInv(w.issuer) && Enabled(w, Issuing(inner)) && inner.Rotation?
    requires I.Attempt(w.issuer, inner.ticket, inner.newKey, inner.now).Ok?
    ensures AnsweredWith(w, Apply(w, Issuing(inner)), inner.ticket, inner.newKey)
  {
    RotationKillsTheOld(w, inner);
  }

  lemma RotationIsSafe(w: World, key: string, inner: I.Step)
    requires Safe(w, key) && Enabled(w, Issuing(inner)) && inner.Rotation?
    requires I.Attempt(w.issuer, inner.ticket, inner.newKey, inner.now).Ok?
    ensures Safe(Apply(w, Issuing(inner)), key)
  {
    var after := Apply(w, Issuing(inner));
    I.ChainStep(w.issuer, inner);
    I.KeysStep(w.issuer, inner);
    RotationAnswers(w, inner);
    MintIsSafe(w, after, key, inner.ticket, inner.newKey);
  }

  lemma IssuerIsSafe(w: World, inner: I.Step, key: string)
    requires Safe(w, key) && Enabled(w, Issuing(inner)) && Undisturbed(w, Issuing(inner), key)
    ensures Safe(Apply(w, Issuing(inner)), key)
  {
    var after := Apply(w, Issuing(inner));
    I.ChainStep(w.issuer, inner);
    I.KeysStep(w.issuer, inner);
    if inner.Creation? || inner.UnsavedCreation? {
      CreationIsSafe(w, key, inner);
    } else if inner.Rotation? && I.Attempt(w.issuer, inner.ticket, inner.newKey, inner.now).Ok? {
      RotationIsSafe(w, key, inner);
    } else {
      BarrenKeys(w, inner);
      BarrenStep(w, inner);
      BarrenStepIsSafe(w, after, key);
    }
  }

  predicate IsBarren(w: World, inner: I.Step) {
    && !inner.Creation? && !inner.UnsavedCreation? && !inner.UnsavedRotation? && !inner.TenantRotation?
    && !inner.Request? && !inner.Crash?
  }

  lemma BarrenKeys(w: World, inner: I.Step)
    requires I.Enabled(w.issuer, inner) && I.KeysInv(w.issuer) && IsBarren(w, inner)
    requires inner.Rotation? ==> !I.Attempt(w.issuer, inner.ticket, inner.newKey, inner.now).Ok?
    ensures NoNewKeys(w, w.(issuer := I.Apply(w.issuer, inner)))
  {
  }

  lemma BarrenStep(w: World, inner: I.Step)
    requires I.Enabled(w.issuer, inner) && IsBarren(w, inner)
    requires inner.Rotation? ==> !I.Attempt(w.issuer, inner.ticket, inner.newKey, inner.now).Ok?
    ensures var after := I.Apply(w.issuer, inner);
            && |after.tickets| == |w.issuer.tickets|
            && forall t :: 0 <= t < |w.issuer.tickets| ==>
                 && after.tickets[t].(stage := w.issuer.tickets[t].stage) == w.issuer.tickets[t]
                 && (w.issuer.tickets[t].stage.Settled? ==> after.tickets[t] == w.issuer.tickets[t])
                 && (after.tickets[t].stage.Settled? && !w.issuer.tickets[t].stage.Settled? ==>
                       after.tickets[t].stage.outcome.Refused?)
  {
  }

  // ---------- steps of both ----------

  lemma MovedFlights(w: World, i: nat, phase: Phase)
    requires FlightsOk(w) && i < |w.service.flights| && FlightOk(w, w.service.flights[i].(phase := phase))
    ensures FlightsOk(w.(service := Goto(w.service, i, phase)))
  {
    var after := w.(service := Goto(w.service, i, phase));
    forall j | 0 <= j < |after.service.flights| ensures FlightOk(after, after.service.flights[j]) {
      KeptFlight(w, after, after.service.flights[j]);
    }
  }

  lemma MovedTickets(w: World, i: nat, phase: Phase)
    requires TicketsAwaited(w) && i < |w.service.flights| && (Waits(w, i) ==> TicketOf(w, i).stage.Settled?)
    ensures TicketsAwaited(w.(service := Goto(w.service, i, phase)))
  {
    var after := w.(service := Goto(w.service, i, phase));
    forall t | 0 <= t < |after.issuer.tickets| && !after.issuer.tickets[t].stage.Settled?
      ensures exists j: nat :: AwaitedBy(after, t, j)
    {
      var j: nat :| AwaitedBy(w, t, j);
      assert AwaitedBy(after, t, j);
    }
  }

  /** A flight that waits for no open ticket moves on; store, keys and tickets stay. */
  lemma FlightMoveIsSafe(w: World, key: string, i: nat, phase: Phase)
    requires Safe(w, key) && i < |w.service.flights| && Running(w.service.flights[i].phase)
    requires PhaseOk(w.service, w.service.flights[i].request, phase)
    requires FlightOk(w, w.service.flights[i].(phase := phase))
    requires Waits(w, i) ==> TicketOf(w, i).stage.Settled?
    ensures Safe(w.(service := Goto(w.service, i, phase)), key)
  {
    var after := w.(service := Goto(w.service, i, phase));
    MoveKeepsInv(w.service, i, phase);
    KeptKeys(w, after);
    MovedFlights(w, i, phase);
    MovedTickets(w, i, phase);
    forall id | id in after.service.store ensures RecordedKeyOk(after, id) {
      assert RecordedKeyOk(w, id);
    }
  }

  lemma AskedFlights(w: World, i: nat)
    requires FlightsOk(w) && Enabled(w, Ask(i))
    ensures FlightsOk(Apply(w, Ask(i)))
  {
    var after := Apply(w, Ask(i));
    assert FlightOk(w, w.service.flights[i]);
    assert after.issuer.keys == w.issuer.keys;
    assert forall id :: LiveMinted(after, id) <==> LiveMinted(w, id);
    assert forall id :: Minted(after, id) <==> Minted(w, id);
    forall j | 0 <= j < |after.service.flights| ensures FlightOk(after, after.service.flights[j]) {
      assert FlightOk(w, w.service.flights[j]);
    }
  }

  lemma AskedTickets(w: World, i: nat)
    requires TicketsAwaited(w) && Enabled(w, Ask(i))
    ensures TicketsAwaited(Apply(w, Ask(i)))
  {
    var after := Apply(w, Ask(i));
    forall t | 0 <= t < |after.issuer.tickets| && !after.issuer.tickets[t].stage.Settled?
      ensures exists j: nat :: AwaitedBy(after, t, j)
    {
      if t == |w.issuer.tickets| {
        assert AwaitedBy(after, t, i);
      } else {
        var j: nat :| AwaitedBy(w, t, j);
        assert AwaitedBy(after, t, j);
      }
    }
  }

  lemma AskIsSafe(w: World, key: string, i: nat)
    requires Safe(w, key) && Enabled(w, Ask(i))
    ensures Safe(Apply(w, Ask(i)), key)
  {
    var after := Apply(w, Ask(i));
    var Minting(record, overlap) := w.service.flights[i].phase;
    StepKeepsInv(w.service, Enqueue(i, |w.issuer.tickets|));
    I.ChainStep(w.issuer, I.Request(record.id, overlap));
    I.KeysStep(w.issuer, I.Request(record.id, overlap));
    assert after.issuer.keys == w.issuer.keys && after.service.store == w.service.store;
    assert forall id :: LiveMinted(after, id) <==> LiveMinted(w, id);
    assert forall id :: Minted(after, id) <==> Minted(w, id);
    AskedFlights(w, i);
    AskedTickets(w, i);
    forall id | id in after.service.store ensures RecordedKeyOk(after, id) {
      assert RecordedKeyOk(w, id);
    }
  }

  lemma CrashIsSafe(w: World, key: string)
    requires Safe(w, key)
    ensures Safe(Apply(w, CrashBoth), key)
  {
    var after := Apply(w, CrashBoth);
    StepKeepsInv(w.service, CredentialService.Step.Crash);
    I.ChainStep(w.issuer, I.Step.Crash);
    I.KeysStep(w.issuer, I.Step.Crash);
    assert forall id :: LiveMinted(after, id) <==> LiveMinted(w, id);
    assert forall id :: Minted(after, id) <==> Minted(w, id);
    forall id | id in after.service.store ensures RecordedKeyOk(after, id) {
      assert RecordedKeyOk(w, id);
    }
  }

  lemma AnsweredIsOk(s: System, i: nat, credential: Credential)
    requires Inv(s) && i < |s.flights| && s.flights[i].phase.Awaiting? && credential.environment == s.flights[i].request.environment
    ensures PhaseOk(s, s.flights[i].request, Recording(s.flights[i].phase.record, credential))
  {
    assert PhaseOk(s, s.flights[i].request, s.flights[i].phase);
  }

  lemma RefusedIsOk(s: System, i: nat, message: string)
    requires Inv(s) && i < |s.flights| && s.flights[i].phase.Awaiting?
    ensures PhaseOk(s, s.flights[i].request, Failing(s.flights[i].phase.record, message))
  {
    assert PhaseOk(s, s.flights[i].request, s.flights[i].phase);
  }

  lemma KeyIsSole(w: World, flight: Flight, credential: Credential)
    requires FlightOk(w, flight) && flight.phase.Awaiting? && flight.request.environment == w.environment
    requires flight.phase.ticket < |w.issuer.tickets|
    requires w.issuer.tickets[flight.phase.ticket].stage == I.Settled(I.Minted(credential.apiKeyId))
    ensures FlightOk(w, flight.(phase := Recording(flight.phase.record, credential)))
  {
  }

  lemma ToldIsSafe(w: World, key: string, i: nat, credential: Credential)
    requires Safe(w, key) && Enabled(w, Told(i, credential))
    ensures Safe(Apply(w, Told(i, credential)), key)
  {
    AnsweredIsOk(w.service, i, credential);
    KeyIsSole(w, w.service.flights[i], credential);
    QuietStepMoves(w.service, Answer(i, credential));
    FlightMoveIsSafe(w, key, i, Recording(w.service.flights[i].phase.record, credential));
  }

  lemma DeniedIsSafe(w: World, key: string, i: nat, message: string)
    requires Safe(w, key) && Enabled(w, Denied(i, message))
    ensures Safe(Apply(w, Denied(i, message)), key)
  {
    RefusedIsOk(w.service, i, message);
    QuietStepMoves(w.service, Refusal(i, message));
    FlightMoveIsSafe(w, key, i, Failing(w.service.flights[i].phase.record, message));
  }

  /** The revocation, then the flight's own move. */
  lemma RevokeOrphanInTwo(w: World, i: nat)
    requires Enabled(w, RevokeOrphan(i))
    ensures var record := w.service.flights[i].phase.record;
            var revocation := Issuing(I.Revocation(record.issuedKey.value));
            && Enabled(w, revocation)
            && Apply(w, revocation).service == w.service
            && Apply(w, revocation).environment == w.environment
            && Apply(w, RevokeOrphan(i)) == Apply(w, revocation).(service := Goto(w.service, i, Reopening(record)))
  {
  }

  lemma ReopeningIsOk(s: System, i: nat)
    requires Inv(s) && i < |s.flights| && s.flights[i].phase.Revoking?
    ensures PhaseOk(s, s.flights[i].request, Reopening(s.flights[i].phase.record))
  {
    assert PhaseOk(s, s.flights[i].request, s.flights[i].phase);
  }

  lemma RevokedFlightMoves(revoked: World, key: string, i: nat)
    requires Safe(revoked, key) && i < |revoked.service.flights| && revoked.service.flights[i].phase.Revoking?
    ensures Safe(revoked.(service := Goto(revoked.service, i, Reopening(revoked.service.flights[i].phase.record))), key)
  {
    ReopeningIsOk(revoked.service, i);
    FlightMoveIsSafe(revoked, key, i, Reopening(revoked.service.flights[i].phase.record));
  }

  lemma RevokeOrphanIsSafe(w: World, key: string, i: nat)
    requires Safe(w, key) && Enabled(w, RevokeOrphan(i))
    ensures Safe(Apply(w, RevokeOrphan(i)), key)
  {
    var revocation := I.Revocation(w.service.flights[i].phase.record.issuedKey.value);
    var revoked := Apply(w, Issuing(revocation));
    RevokeOrphanInTwo(w, i);
    IssuerIsSafe(w, revocation, key);
    RevokedFlightMoves(revoked, key, i);
  }

  lemma MoveIsSafe(w: World, move: Move, key: string)
    requires Safe(w, key) && Enabled(w, move) && Undisturbed(w, move, key)
    ensures Safe(Apply(w, move), key)
  {
    match move
    case Service(step) => ServiceIsSafe(w, step, key);
    case Issuing(inner) => IssuerIsSafe(w, inner, key);
    case Ask(i) => AskIsSafe(w, key, i);
    case Told(i, credential) => ToldIsSafe(w, key, i, credential);
    case Denied(i, message) => DeniedIsSafe(w, key, i, message);
    case RevokeOrphan(i) => RevokeOrphanIsSafe(w, key, i);
    case CrashBoth => CrashIsSafe(w, key);
  }

  // ---------- guarantees over whole runs ----------

  /** A service that has no operations yet, over a key table with at most one standing key. */
  ghost predicate Initial(w: World) {
    && w.service.store == map[] && w.service.flights == [] && w.service.inFlight == map[] && w.service.handed == map[]
    && w.issuer.tickets == [] && w.issuer.tail.None?
    && K.AtMostOneStanding(w.issuer.keys) && (forall id :: id in w.issuer.keys ==> w.issuer.keys[id].operation.None?)
  }

  lemma {:induction false} UndisturbedRunsAreSafe(worlds: seq<World>, moves: seq<Move>, key: string, n: nat)
    requires IsUndisturbedRun(worlds, moves, key) && Initial(worlds[0]) && n < |worlds|
    ensures Safe(worlds[n], key)
  {
    if n == 0 {
      NewServiceIsSound(worlds[0].service.now, worlds[0].service.key);
    } else {
      UndisturbedRunsAreSafe(worlds, moves, key, n - 1);
      MoveIsSafe(worlds[n - 1], moves[n - 1], key);
    }
  }

  /** Crashes, retries, lost acknowledgements and refused mints included: never two live keys for one operation. */
  lemma OneLiveKeyPerOperation(worlds: seq<World>, moves: seq<Move>, key: string, n: nat, a: string, b: string)
    requires IsUndisturbedRun(worlds, moves, key) && Initial(worlds[0]) && n < |worlds|
    requires LiveMinted(worlds[n], a) && LiveMinted(worlds[n], b)
    ensures a == b
  {
    UndisturbedRunsAreSafe(worlds, moves, key, n);
    assert K.IsStanding(worlds[n].issuer.keys, a) && K.IsStanding(worlds[n].issuer.keys, b);
  }

  /** Once issued, the key in the envelope is the only live one, and it lives until somebody revokes it. */
  lemma TheLiveKeyIsTheSealedOne(worlds: seq<World>, moves: seq<Move>, key: string, n: nat, id: string)
    requires IsUndisturbedRun(worlds, moves, key) && Initial(worlds[0]) && n < |worlds|
    requires IsIssued(worlds[n].service, id) && worlds[n].service.store[id].environment == worlds[n].environment
    ensures var w := worlds[n];
            var handoff := w.service.handed[id];
            var sealed := handoff.credential.apiKeyId;
            && sealed in w.issuer.keys
            && (forall other :: LiveMinted(w, other) <==> other == sealed && w.issuer.keys[sealed].active)
            && (w.service.store[id].envelope.Some? ==>
                  Decrypt(w.service.store[id].envelope.value, w.service.key, w.environment, id) == Ok(handoff))
  {
    UndisturbedRunsAreSafe(worlds, moves, key, n);
    assert RecordOk(worlds[n].service, id);
    assert RecordedKeyOk(worlds[n], id);
  }
}
