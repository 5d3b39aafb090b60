/**
 Merchant-key issuance for one environment: `issueMerchantCredential` chains every request
 on the promise of the previous one, and the request at the head of the chain takes a
 snapshot of the key table, then rotates the standing key or creates one.

 Each step runs between two awaits.  Requests, revocations, the tenant's own
 operations and process crashes interleave freely.
 */
module MerchantIssuer {
  import opened Prelude
  import opened Expiry
  import opened TenantKeys

  datatype Outcome =
    | Minted(key: KeyId)
    | Refused
    | Lost  // the process died before the request was answered

  datatype Stage =
    | Waiting                   // until the previous promise settles
    | Opening                   // obtaining the runtime
    | Rotating(standing: KeyId) // the snapshot had a standing key
    | Creating                  // the snapshot had none
    | Adopting                  // the rotation failed and was not a validation failure
    | Settled(outcome: Outcome)

  /** `previous` is the promise found in the rotation map when the request arrived. */
  datatype Ticket = Ticket(operation: string, overlap: Option<int>, previous: Option<nat>, stage: Stage)

  datatype Issuer = Issuer(keys: Table, tickets: seq<Ticket>, tail: Option<nat>)

  datatype Step =
    | Request(operation: string, overlap: Option<int>)
    | Start(ticket: nat)
    | Unavailable(ticket: nat)
    | Snapshot(ticket: nat, found: Option<KeyId>)
    | Rotation(ticket: nat, newKey: KeyId, now: int)
    | UnsavedRotation(ticket: nat, newKey: KeyId, now: int)  // applied, but its save is reported as failed
    | Creation(ticket: nat, newKey: KeyId)
    | UnsavedCreation(ticket: nat, newKey: KeyId)
    | Revocation(key: KeyId)
    | TenantRotation(key: KeyId, overlap: Option<int>, requested: Option<int>, newKey: KeyId, now: int)
    | TenantCreation(newKey: KeyId, name: string, expires: Option<int>)
    | Crash

  predicate Holds(stage: Stage) {
    stage.Opening? || stage.Rotating? || stage.Creating? || stage.Adopting?
  }

  predicate HoldsSnapshot(stage: Stage) {
    stage.Rotating? || stage.Creating? || stage.Adopting?
  }

  predicate At(s: Issuer, i: nat, stage: Stage) {
    i < |s.tickets| && s.tickets[i].stage == stage
  }

  function Attempt(s: Issuer, i: nat, newKey: KeyId, now: int): Result<TenantKeys.Rotation, AccessError>
    requires i < |s.tickets| && s.tickets[i].stage.Rotating?
  {
    var t := s.tickets[i];
    Rotate(s.keys, t.stage.standing, t.overlap, None, newKey, Some(t.operation), now)
  }

  ghost predicate Enabled(s: Issuer, step: Step) {
    match step
    case Request(_, _) => true
    case Start(i) =>
      && At(s, i, Waiting)
      && (s.tickets[i].previous.Some? ==>
            s.tickets[i].previous.value < |s.tickets| && s.tickets[s.tickets[i].previous.value].stage.Settled?)
    case Unavailable(i) => At(s, i, Opening)
    case Snapshot(i, found) =>
      && At(s, i, Opening)
      && (if found.Some? then IsStanding(s.keys, found.value) else NoneStanding(s.keys))
    case Rotation(i, newKey, _) => i < |s.tickets| && s.tickets[i].stage.Rotating? && newKey !in s.keys
    case UnsavedRotation(i, newKey, now) =>
      i < |s.tickets| && s.tickets[i].stage.Rotating? && newKey !in s.keys && Attempt(s, i, newKey, now).Ok?
    case Creation(i, newKey) => (At(s, i, Creating) || At(s, i, Adopting)) && newKey !in s.keys
    case UnsavedCreation(i, newKey) => (At(s, i, Creating) || At(s, i, Adopting)) && newKey !in s.keys
    case Revocation(_) => true
    // The snapshot and the rotation it leads to share one synchronous run, so no other rotation falls between them.
    case TenantRotation(_, _, _, newKey, _) =>
      newKey !in s.keys && forall i :: 0 <= i < |s.tickets| ==> !HoldsSnapshot(s.tickets[i].stage)
    case TenantCreation(newKey, name, expires) =>
      newKey !in s.keys && (name != MERCHANT_KEY_NAME || expires.Some?)
    case Crash => true
  }

  function Advance(s: Issuer, i: nat, stage: Stage): Issuer
    requires i < |s.tickets|
  {
    s.(tickets := s.tickets[i := s.tickets[i].(stage := stage)])
  }

  function Abandon(tickets: seq<Ticket>): (r: seq<Ticket>)
    ensures |r| == |tickets|
    ensures forall i :: 0 <= i < |r| ==>
              r[i] == if tickets[i].stage.Settled? then tickets[i] else tickets[i].(stage := Settled(Lost))
  {
    seq(|tickets|, i requires 0 <= i < |tickets| =>
      if tickets[i].stage.Settled? then tickets[i] else tickets[i].(stage := Settled(Lost)))
  }

  function Mint(s: Issuer, i: nat, newKey: KeyId, outcome: Outcome): Issuer
    requires i < |s.tickets|
  {
    Advance(s.(keys := Create(s.keys, newKey, MERCHANT_KEY_NAME, None, Some(s.tickets[i].operation))),
            i, Settled(outcome))
  }

  ghost function Apply(s: Issuer, step: Step): Issuer
    requires Enabled(s, step)
  {
    match step
    case Request(operation, overlap) =>
      Issuer(s.keys, s.tickets + [Ticket(operation, overlap, s.tail, Waiting)], Some(|s.tickets|))
    case Start(i) => Advance(s, i, Opening)
    case Unavailable(i) => Advance(s, i, Settled(Refused))
    case Snapshot(i, found) => Advance(s, i, if found.Some? then Rotating(found.value) else Creating)
    case Rotation(i, newKey, now) =>
      (match Attempt(s, i, newKey, now)
       case Ok(rotation) => Advance(s.(keys := rotation.table), i, Settled(Minted(newKey)))
       case Err(ValidationFailed) => Advance(s, i, Settled(Refused))
       case Err(_) => Advance(s, i, Adopting))
    case UnsavedRotation(i, newKey, now) =>
      Advance(s.(keys := Attempt(s, i, newKey, now).value.table), i, Adopting)
    case Creation(i, newKey) => Mint(s, i, newKey, Minted(newKey))
    case UnsavedCreation(i, newKey) => Mint(s, i, newKey, Refused)
    case Revocation(key) => s.(keys := Revoke(s.keys, key))
    case TenantRotation(key, overlap, requested, newKey, now) =>
      (match Rotate(s.keys, key, overlap, requested, newKey, None, now)
       case Ok(rotation) => s.(keys := rotation.table)
       case Err(_) => s)
    case TenantCreation(newKey, name, expires) => s.(keys := Create(s.keys, newKey, name, expires, None))
    case Crash => Issuer(s.keys, Abandon(s.tickets), None)
  }

  ghost predicate IsRun(states: seq<Issuer>, steps: seq<Step>) {
    && |states| == |steps| + 1
    && forall n :: 0 <= n < |steps| ==> Enabled(states[n], steps[n]) && states[n + 1] == Apply(states[n], steps[n])
  }

  // ---------- the promise chain is a first-come, first-served mutex ----------

  ghost predicate Chained(tickets: seq<Ticket>, tail: Option<nat>) {
    && (tail.None? ==> forall i :: 0 <= i < |tickets| ==> tickets[i].stage.Settled?)
    && (tail.Some? ==> tail.value + 1 == |tickets|)
    && (forall i :: 0 <= i < |tickets| && tickets[i].previous.Some? ==> tickets[i].previous.value + 1 == i)
    && (forall i, j :: 0 <= j < i < |tickets| && tickets[i].previous.None? ==> tickets[j].stage.Settled?)
    && (forall i, j :: 0 <= j < i < |tickets| && !tickets[i].stage.Waiting? ==> tickets[j].stage.Settled?)
  }

  ghost predicate ChainInv(s: Issuer) {
    Chained(s.tickets, s.tail)
  }

  lemma ChainAdvance(tickets: seq<Ticket>, tail: Option<nat>, i: nat, ticket: Ticket)
    requires Chained(tickets, tail) && i < |tickets|
    requires !tickets[i].stage.Settled? && !ticket.stage.Waiting? && ticket.previous == tickets[i].previous
    requires forall j :: 0 <= j < i ==> tickets[j].stage.Settled?
    ensures Chained(tickets[i := ticket], tail)
  {
  }

  lemma ChainRequest(tickets: seq<Ticket>, tail: Option<nat>, ticket: Ticket)
    requires Chained(tickets, tail) && ticket.previous == tail && ticket.stage.Waiting?
    ensures Chained(tickets + [ticket], Some(|tickets|))
  {
  }

  /** A step leaves the chain alone, appends a request, moves the request at the head, or drops them all. */
  lemma ChainStep(s: Issuer, step: Step)
    requires ChainInv(s) && Enabled(s, step)
    ensures ChainInv(Apply(s, step))
  {
    var after := Apply(s, step);
    match step
    case Request(operation, overlap) =>
      ChainRequest(s.tickets, s.tail, Ticket(operation, overlap, s.tail, Waiting));
    case Start(i) =>
      ChainAdvance(s.tickets, s.tail, i, after.tickets[i]);
    case Unavailable(i) =>
      ChainAdvance(s.tickets, s.tail, i, after.tickets[i]);
    case Snapshot(i, found) =>
      ChainAdvance(s.tickets, s.tail, i, after.tickets[i]);
    case Rotation(i, newKey, now) =>
      ChainAdvance(s.tickets, s.tail, i, after.tickets[i]);
    case UnsavedRotation(i, newKey, now) =>
      ChainAdvance(s.tickets, s.tail, i, after.tickets[i]);
    case Creation(i, newKey) =>
      ChainAdvance(s.tickets, s.tail, i, after.tickets[i]);
    case UnsavedCreation(i, newKey) =>
      ChainAdvance(s.tickets, s.tail, i, after.tickets[i]);
    case Crash =>
    case _ =>
      assert after.tickets == s.tickets && after.tail == s.tail;
  }

  /**
   In every interleaving at most one request is past the chain, everything that arrived before
   it has been answered, and everything that arrived after it still waits.
   */
  lemma {:induction false} RotationsRunOneAtATimeInOrder(states: seq<Issuer>, steps: seq<Step>, n: nat, i: nat)
    requires IsRun(states, steps) && ChainInv(states[0])
    requires n < |states| && i < |states[n].tickets| && Holds(states[n].tickets[i].stage)
    ensures forall j :: 0 <= j < |states[n].tickets| && j != i ==>
              if j < i then states[n].tickets[j].stage.Settled? else states[n].tickets[j].stage.Waiting?
  {
    ChainRun(states, steps, n);
  }

  lemma {:induction false} ChainRun(states: seq<Issuer>, steps: seq<Step>, n: nat)
    requires IsRun(states, steps) && ChainInv(states[0]) && n < |states|
    ensures ChainInv(states[n])
  {
    if n > 0 {
      ChainRun(states, steps, n - 1);
      ChainStep(states[n - 1], steps[n - 1]);
    }
  }

  // ---------- at most one standing key ----------

  ghost predicate KeysInv(s: Issuer) {
    && AtMostOneStanding(s.keys)
    && (forall i :: 0 <= i < |s.tickets| ==>
          (s.tickets[i].stage.Creating? || s.tickets[i].stage.Adopting? ==> NoneStanding(s.keys)))
    && (forall i :: 0 <= i < |s.tickets| && s.tickets[i].stage.Rotating? ==>
          RotatesStanding(s.keys, s.tickets[i].stage.standing))
  }

  /** The key a snapshot chose is still the only key that can be standing; it may have been revoked since. */
  ghost predicate RotatesStanding(keys: Table, id: KeyId) {
    && id in keys && keys[id].name == MERCHANT_KEY_NAME && keys[id].expires.None?
    && forall other :: IsStanding(keys, other) ==> other == id
  }

  lemma RotationKeepsKeys(s: Issuer, step: Step)
    requires ChainInv(s) && KeysInv(s) && Enabled(s, step) && step.Rotation?
    ensures KeysInv(Apply(s, step))
  {
    if Attempt(s, step.ticket, step.newKey, step.now).Ok? {
      RotationMovesStanding(s.keys, s.tickets[step.ticket].stage.standing, s.tickets[step.ticket].overlap, None,
                            step.newKey, Some(s.tickets[step.ticket].operation), step.now);
    }
  }

  lemma TenantRotationKeepsKeys(s: Issuer, step: Step)
    requires KeysInv(s) && Enabled(s, step) && step.TenantRotation?
    ensures KeysInv(Apply(s, step))
  {
    if Rotate(s.keys, step.key, step.overlap, step.requested, step.newKey, None, step.now).Ok? {
      RotationMovesStanding(s.keys, step.key, step.overlap, step.requested, step.newKey, None, step.now);
    }
  }

  lemma CreationKeepsKeys(s: Issuer, step: Step)
    requires ChainInv(s) && KeysInv(s) && Enabled(s, step) && (step.Creation? || step.UnsavedCreation?)
    ensures KeysInv(Apply(s, step))
  {
    var after := Apply(s, step);
    assert forall other :: IsStanding(after.keys, other) ==> other == step.newKey || IsStanding(s.keys, other);
  }

  /** Keys that are revoked, or made under another name or with an end, leave no more keys standing than before. */
  lemma OthersKeepKeys(s: Issuer, step: Step)
    requires KeysInv(s) && Enabled(s, step)
    requires !step.Rotation? && !step.UnsavedRotation? && !step.TenantRotation? && !step.Creation? && !step.UnsavedCreation?
    ensures KeysInv(Apply(s, step))
  {
    var after := Apply(s, step);
    assert forall other :: IsStanding(after.keys, other) ==> IsStanding(s.keys, other);
  }

  lemma KeysStep(s: Issuer, step: Step)
    requires ChainInv(s) && KeysInv(s) && Enabled(s, step) && !step.UnsavedRotation?
    ensures KeysInv(Apply(s, step))
  {
    match step
    case Rotation(_, _, _) => RotationKeepsKeys(s, step);
    case TenantRotation(_, _, _, _, _) => TenantRotationKeepsKeys(s, step);
    case Creation(_, _) => CreationKeepsKeys(s, step);
    case UnsavedCreation(_, _) => CreationKeepsKeys(s, step);
    case _ => OthersKeepKeys(s, step);
  }

  lemma {:induction false} KeysRun(states: seq<Issuer>, steps: seq<Step>, n: nat)
    requires IsRun(states, steps) && n < |states|
    requires ChainInv(states[0]) && KeysInv(states[0])
    requires forall m :: 0 <= m < |steps| ==> !steps[m].UnsavedRotation?
    ensures ChainInv(states[n]) && KeysInv(states[n])
  {
    if n > 0 {
      KeysRun(states, steps, n - 1);
      ChainStep(states[n - 1], steps[n - 1]);
      KeysStep(states[n - 1], steps[n - 1]);
    }
  }

  /** In every interleaving of issuances and revocations, of two live merchant keys at most one lives without an end. */
  lemma OneLiveKeyWithoutExpiry(states: seq<Issuer>, steps: seq<Step>, n: nat, a: KeyId, b: KeyId, now: int)
    requires IsRun(states, steps) && n < |states| && states[0].tickets == [] && states[0].tail.None?
    requires AtMostOneStanding(states[0].keys)
    requires forall m :: 0 <= m < |steps| ==> !steps[m].UnsavedRotation?
    requires a in states[n].keys && b in states[n].keys && a != b
    requires states[n].keys[a].name == MERCHANT_KEY_NAME && states[n].keys[b].name == MERCHANT_KEY_NAME
    requires Live(states[n].keys[a], now) && Live(states[n].keys[b], now)
    ensures states[n].keys[a].expires.Some? || states[n].keys[b].expires.Some?
  {
    KeysRun(states, steps, n);
    if states[n].keys[a].expires.None? && states[n].keys[b].expires.None? {
      assert IsStanding(states[n].keys, a) && IsStanding(states[n].keys, b);
    }
  }

  /** Creating a merchant key keeps the standing key unique exactly when none stands. */
  lemma CreationNeedsNoStanding(s: Issuer, i: nat, newKey: KeyId)
    requires Enabled(s, Creation(i, newKey)) && AtMostOneStanding(s.keys)
    ensures AtMostOneStanding(Apply(s, Creation(i, newKey)).keys) <==> NoneStanding(s.keys)
  {
    var after := Apply(s, Creation(i, newKey)).keys;
    assert IsStanding(after, newKey);
    assert forall other :: other != newKey ==> (IsStanding(after, other) <==> IsStanding(s.keys, other));
    if id :| IsStanding(s.keys, id) {
      assert IsStanding(after, id) && id != newKey;
    }
  }

  /**
   What the request at the head of the chain comes to when its snapshot found a key: a bad overlap is
   refused, a usable key is rotated, and for one that is gone or dead another is created.
   */
  lemma RotatingRequestsAreAnswered(s: Issuer, i: nat, newKey: KeyId, another: KeyId, now: int)
    requires Enabled(s, Step.Rotation(i, newKey, now)) && another !in s.keys
    ensures var (t, after) := (s.tickets[i], Apply(s, Step.Rotation(i, newKey, now)));
            var usable := t.stage.standing in s.keys && Live(s.keys[t.stage.standing], now);
            if t.overlap.Some? && !(0 <= t.overlap.value <= 604_800) then
              after.tickets[i].stage == Settled(Refused) && after.keys == s.keys
            else if usable then
              && after.tickets[i].stage == Settled(Minted(newKey)) && newKey in after.keys
              && after.keys[newKey] == s.keys[t.stage.standing].(operation := Some(t.operation))
            else
              && after.keys == s.keys && Enabled(after, Creation(i, another))
              && var adopted := Apply(after, Creation(i, another));
                 && adopted.tickets[i].stage == Settled(Minted(another))
                 && adopted.keys == s.keys[another := ApiKey(MERCHANT_KEY_NAME, true, None, Some(t.operation))]
  {
    var t := s.tickets[i];
    RotatesExactly(s.keys, t.stage.standing, t.overlap, None, newKey, Some(t.operation), now);
  }

  /** And when it found none, one is created for it. */
  lemma CreatingRequestsAreAnswered(s: Issuer, i: nat, newKey: KeyId)
    requires Enabled(s, Snapshot(i, None)) && newKey !in s.keys
    ensures var seen := Apply(s, Snapshot(i, None));
            && Enabled(seen, Creation(i, newKey))
            && var after := Apply(seen, Creation(i, newKey));
               && after.tickets[i].stage == Settled(Minted(newKey))
               && after.keys == s.keys[newKey := ApiKey(MERCHANT_KEY_NAME, true, None, Some(s.tickets[i].operation))]
  {
  }

  /** A request without a runtime is refused; a crash loses the requests that were not answered yet; neither touches a key. */
  lemma UnservedRequests(s: Issuer, i: nat)
    requires i < |s.tickets|
    ensures At(s, i, Opening) ==>
              Apply(s, Unavailable(i)).tickets[i].stage == Settled(Refused) && Apply(s, Unavailable(i)).keys == s.keys
    ensures Apply(s, Crash).keys == s.keys && Apply(s, Crash).tail.None?
    ensures Apply(s, Crash).tickets[i].stage == if s.tickets[i].stage.Settled? then s.tickets[i].stage else Settled(Lost)
  {
  }

  /** Revocations and what the tenant does for itself reach the one table of keys, and leave the requests alone. */
  lemma OthersShareTheTable(s: Issuer, step: Step)
    requires Enabled(s, step) && (step.Revocation? || step.TenantCreation? || step.TenantRotation?)
    ensures var after := Apply(s, step);
            && after.tickets == s.tickets && after.tail == s.tail
            && match step
               case Revocation(key) =>
                 && after.keys.Keys == s.keys.Keys && (key in s.keys ==> after.keys[key] == s.keys[key].(active := false))
                 && forall other :: other in s.keys && other != key ==> after.keys[other] == s.keys[other]
               case TenantCreation(newKey, name, expires) => after.keys == s.keys[newKey := ApiKey(name, true, expires, None)]
               case TenantRotation(key, overlap, requested, newKey, now) =>
                 var r := Rotate(s.keys, key, overlap, requested, newKey, None, now);
                 after.keys == if r.Ok? then r.value.table else s.keys
  {
  }

  /**
   The one way to two standing keys: a rotation that was applied but whose save is reported as
   failed is adopted as if the key had vanished.
   */
  lemma UnsavedRotationThenAdoption(s: Issuer, i: nat, lost: KeyId, newKey: KeyId, now: int)
    requires ChainInv(s) && KeysInv(s) && Enabled(s, UnsavedRotation(i, lost, now))
    requires newKey !in s.keys && newKey != lost
    ensures var adopting := Apply(s, UnsavedRotation(i, lost, now));
            && Enabled(adopting, Creation(i, newKey))
            && AtMostOneStanding(adopting.keys)
            && !AtMostOneStanding(Apply(adopting, Creation(i, newKey)).keys)
  {
    var adopting := Apply(s, UnsavedRotation(i, lost, now));
    var t := s.tickets[i];
    RotationMovesStanding(s.keys, t.stage.standing, t.overlap, None, lost, Some(t.operation), now);
    assert IsStanding(s.keys, t.stage.standing);
    assert IsStanding(adopting.keys, lost);
    CreationNeedsNoStanding(adopting, i, newKey);
  }
}
