/**
 The key an interrupted issuance leaves behind when the process dies before its id is recorded.
 The recovery asks for a rotation with zero overlap in the belief that the orphan is the key
 that stands.  In every run, with anything else issuing, this module says exactly when that
 belief is right, and shows the service reaching a state in which it is not.
 */
module CredentialOrphans {
  import opened Prelude
  import opened Expiry
  import opened Handoffs
  import opened CredentialStore
  import opened CredentialService
  import opened CredentialReplay
  import opened CredentialSafety
  import K = TenantKeys
  import I = MerchantIssuer

  /** Any run: other operations issue on the environment, and the tenant rotates keys of its own. */
  ghost predicate IsRun(worlds: seq<World>, moves: seq<Move>) {
    && |worlds| == |moves| + 1
    && forall n :: 0 <= n < |moves| ==>
         CredentialSafety.Enabled(worlds[n], moves[n]) && worlds[n + 1] == CredentialSafety.Apply(worlds[n], moves[n])
  }

  predicate LiveAt(w: World, id: string) {
    id in w.issuer.keys && K.Live(w.issuer.keys[id], w.service.now)
  }

  // ---------- what a move does to the issuer ----------

  function InnerStep(w: World, move: Move): Option<I.Step>
    requires move.Ask? || move.RevokeOrphan? ==> move.flight < |w.service.flights|
    requires move.Ask? ==> w.service.flights[move.flight].phase.Minting?
    requires move.RevokeOrphan? ==>
               w.service.flights[move.flight].phase.Revoking? && w.service.flights[move.flight].phase.record.issuedKey.Some?
  {
    match move
    case Issuing(inner) => Some(inner)
    case Ask(i) => Some(I.Request(w.service.flights[i].phase.record.id, w.service.flights[i].phase.overlap))
    case RevokeOrphan(i) => Some(I.Revocation(w.service.flights[i].phase.record.issuedKey.value))
    case CrashBoth => Some(I.Step.Crash)
    case _ => None
  }

  lemma MovesAreIssuerSteps(w: World, move: Move)
    requires CredentialSafety.Enabled(w, move)
    ensures var (after, inner) := (CredentialSafety.Apply(w, move), InnerStep(w, move));
            && w.service.now <= after.service.now
            && (inner.None? ==> after.issuer == w.issuer)
            && (inner.Some? ==> I.Enabled(w.issuer, inner.value) && after.issuer == I.Apply(w.issuer, inner.value)
                                && OnTime(inner.value, w.service.now))
  {
    if move.Service? {
      ClockStep(w.service, move.step);
    }
  }

  /** No step of the issuer brings a key back to life or lengthens one. */
  lemma KeysOnlyShrink(s: I.Issuer, step: I.Step, id: string)
    requires I.Enabled(s, step) && id in s.keys
    ensures var after := I.Apply(s, step);
            && id in after.keys && (after.keys[id].active ==> s.keys[id].active)
            && NotLater(after.keys[id].expires, s.keys[id].expires)
  {
  }

  // ---------- from the snapshot to the mint ----------

  /** What is left of the snapshot of a request with zero overlap: it rotates the key that was found, or that key is dead. */
  ghost predicate Chosen(s: I.Issuer, t: nat, found: Option<string>, now: int) {
    && t < |s.tickets| && s.tickets[t].overlap == Some(0) && (found.Some? ==> found.value in s.keys)
    && match s.tickets[t].stage
       case Rotating(standing) => found == Some(standing)
       case Creating => found.None?
       case Adopting => found.Some? && !K.Live(s.keys[found.value], now)
       case Settled(_) => true
       case _ => false
  }

  lemma ChosenByStep(s: I.Issuer, step: I.Step, t: nat, found: Option<string>, now: int, later: int)
    requires I.Enabled(s, step) && OnTime(step, now) && now <= later && Chosen(s, t, found, now)
    ensures Chosen(I.Apply(s, step), t, found, later)
  {
    if found.Some? {
      KeysOnlyShrink(s, step, found.value);
    }
  }

  lemma ChosenByMove(w: World, move: Move, t: nat, found: Option<string>, after: World)
    requires CredentialSafety.Enabled(w, move) && after == CredentialSafety.Apply(w, move) && Chosen(w.issuer, t, found, w.service.now)
    ensures Chosen(after.issuer, t, found, after.service.now)
  {
    MovesAreIssuerSteps(w, move);
    if InnerStep(w, move).Some? {
      ChosenByStep(w.issuer, InnerStep(w, move).value, t, found, w.service.now, after.service.now);
    } else {
      assert after.issuer == w.issuer;
    }
  }

  lemma {:induction false} ChosenThroughout(worlds: seq<World>, from: nat, n: nat, t: nat, found: Option<string>)
    requires from <= n < |worlds| && Chosen(worlds[from].issuer, t, found, worlds[from].service.now)
    requires forall k :: from <= k < n && Chosen(worlds[k].issuer, t, found, worlds[k].service.now) ==>
               Chosen(worlds[k + 1].issuer, t, found, worlds[k + 1].service.now)
    ensures Chosen(worlds[n].issuer, t, found, worlds[n].service.now)
  {
    if from < n {
      ChosenThroughout(worlds, from, n - 1, t, found);
    }
  }

  lemma ChosenUntilTheMint(worlds: seq<World>, moves: seq<Move>, from: nat, n: nat, t: nat, found: Option<string>)
    requires IsRun(worlds, moves) && from <= n < |worlds| && Chosen(worlds[from].issuer, t, found, worlds[from].service.now)
    ensures Chosen(worlds[n].issuer, t, found, worlds[n].service.now)
  {
    forall k | from <= k < n && Chosen(worlds[k].issuer, t, found, worlds[k].service.now)
      ensures Chosen(worlds[k + 1].issuer, t, found, worlds[k + 1].service.now)
    {
      ChosenByMove(worlds[k], moves[k], t, found, worlds[k + 1]);
    }
    ChosenThroughout(worlds, from, n, t, found);
  }

  /** The request is answered with a key, or a key is made for it and its answer is lost. */
  ghost predicate Mints(s: I.Issuer, step: I.Step, t: nat) {
    && (step.Rotation? || step.UnsavedRotation? || step.Creation? || step.UnsavedCreation?)
    && step.ticket == t && I.Enabled(s, step) && (step.Rotation? ==> I.Attempt(s, t, step.newKey, step.now).Ok?)
  }

  lemma MintKillsTheChosen(s: I.Issuer, step: I.Step, t: nat, found: Option<string>, now: int, orphan: string)
    requires Mints(s, step, t) && OnTime(step, now) && Chosen(s, t, found, now) && orphan in s.keys && K.Live(s.keys[orphan], now)
    ensures orphan in I.Apply(s, step).keys
    ensures K.Live(I.Apply(s, step).keys[orphan], now) <==> found != Some(orphan)
  {
    if s.tickets[t].stage.Rotating? {
      K.ZeroOverlapKillsExactlyTheRotatedKey(s.keys, s.tickets[t].stage.standing, step.newKey, Some(s.tickets[t].operation), now, orphan);
    }
  }

  lemma TicketsKeepTheirOverlap(s: I.Issuer, step: I.Step, t: nat)
    requires I.Enabled(s, step) && t < |s.tickets|
    ensures t < |I.Apply(s, step).tickets| && I.Apply(s, step).tickets[t].overlap == s.tickets[t].overlap
  {
  }

  lemma {:induction false} OverlapIsFixed(worlds: seq<World>, moves: seq<Move>, from: nat, n: nat, t: nat)
    requires IsRun(worlds, moves) && from <= n < |worlds| && t < |worlds[from].issuer.tickets|
    ensures t < |worlds[n].issuer.tickets| && worlds[n].issuer.tickets[t].overlap == worlds[from].issuer.tickets[t].overlap
  {
    if from < n {
      OverlapIsFixed(worlds, moves, from, n - 1, t);
      var (w, move) := (worlds[n - 1], moves[n - 1]);
      MovesAreIssuerSteps(w, move);
      if InnerStep(w, move).Some? {
        TicketsKeepTheirOverlap(w.issuer, InnerStep(w, move).value, t);
      } else {
        assert w.issuer == worlds[n].issuer;
      }
    }
  }

  /**
   In every run: a recovery asks for its key at `asked`, its snapshot is taken at `seen`, and it is
   given a key at `minted`.  A key that was live until then, such as the orphan of an earlier
   attempt, survives if and only if it is not the key the snapshot found standing.
   */
  lemma OrphanSurvivesExactly(worlds: seq<World>, moves: seq<Move>, asked: nat, seen: nat, minted: nat, i: nat,
                              found: Option<string>, inner: I.Step, orphan: string)
    requires IsRun(worlds, moves) && asked < seen < minted < |moves|
    requires moves[asked] == Ask(i) && worlds[asked].service.flights[i].phase.overlap == Some(0)
    requires moves[seen] == Issuing(I.Snapshot(|worlds[asked].issuer.tickets|, found))
    requires moves[minted] == Issuing(inner) && Mints(worlds[minted].issuer, inner, |worlds[asked].issuer.tickets|)
    requires LiveAt(worlds[minted], orphan)
    ensures LiveAt(worlds[minted + 1], orphan) <==> found != Some(orphan)
    ensures K.AtMostOneStanding(worlds[seen].issuer.keys) ==>
              (LiveAt(worlds[minted + 1], orphan) <==> !K.IsStanding(worlds[seen].issuer.keys, orphan))
  {
    var t := |worlds[asked].issuer.tickets|;
    OverlapIsFixed(worlds, moves, asked + 1, seen, t);
    var (before, after) := (worlds[seen], worlds[seen + 1]);
    assert Chosen(after.issuer, t, found, after.service.now);
    ChosenUntilTheMint(worlds, moves, seen + 1, minted, t, found);
    MintKillsTheChosen(worlds[minted].issuer, inner, t, found, worlds[minted].service.now, orphan);
    assert found.None? ==> K.NoneStanding(before.issuer.keys);
  }

  // ---------- the key of an attempt that was recorded ----------

  ghost predicate Revoked(w: World, id: string) {
    id in w.issuer.keys && !w.issuer.keys[id].active
  }

  lemma RevokedByMove(w: World, move: Move, id: string, after: World)
    requires CredentialSafety.Enabled(w, move) && after == CredentialSafety.Apply(w, move) && Revoked(w, id)
    ensures Revoked(after, id)
  {
    MovesAreIssuerSteps(w, move);
    if InnerStep(w, move).Some? {
      KeysOnlyShrink(w.issuer, InnerStep(w, move).value, id);
    }
  }

  lemma {:induction false} RevokedThroughout(worlds: seq<World>, from: nat, n: nat, id: string)
    requires from <= n < |worlds| && Revoked(worlds[from], id)
    requires forall k :: from <= k < n && Revoked(worlds[k], id) ==> Revoked(worlds[k + 1], id)
    ensures Revoked(worlds[n], id)
  {
    if from < n {
      RevokedThroughout(worlds, from, n - 1, id);
    }
  }

  /** In every run, the key that an earlier attempt recorded is dead from the recovery's revocation on, for ever. */
  lemma RecordedKeysDieInRecovery(worlds: seq<World>, moves: seq<Move>, k: nat, n: nat, i: nat)
    requires IsRun(worlds, moves) && k < n < |worlds| && moves[k] == RevokeOrphan(i)
    requires worlds[k].service.flights[i].phase.record.issuedKey.value in worlds[k].issuer.keys
    ensures !LiveAt(worlds[n], worlds[k].service.flights[i].phase.record.issuedKey.value)
    ensures worlds[k + 1].service.flights[i].phase == Reopening(worlds[k].service.flights[i].phase.record)
  {
    var id := worlds[k].service.flights[i].phase.record.issuedKey.value;
    assert Revoked(worlds[k + 1], id);
    forall m | k + 1 <= m < n && Revoked(worlds[m], id) ensures Revoked(worlds[m + 1], id) {
      RevokedByMove(worlds[m], moves[m], id, worlds[m + 1]);
    }
    RevokedThroughout(worlds, k + 1, n, id);
  }

  // ---------- the service itself reaches the bad case ----------

  lemma RunsJoin(first: seq<World>, firstMoves: seq<Move>, second: seq<World>, secondMoves: seq<Move>)
    requires IsRun(first, firstMoves) && IsRun(second, secondMoves) && first[|firstMoves|] == second[0]
    ensures IsRun(first + second[1..], firstMoves + secondMoves)
    ensures (first + second[1..])[|firstMoves| + |secondMoves|] == second[|secondMoves|]
  {
    var (worlds, moves) := (first + second[1..], firstMoves + secondMoves);
    forall n | 0 <= n < |moves|
      ensures CredentialSafety.Enabled(worlds[n], moves[n]) && worlds[n + 1] == CredentialSafety.Apply(worlds[n], moves[n])
    {
      var k := n - |firstMoves|;
      if 0 <= k {
        assert worlds[n] == second[k] && worlds[n + 1] == second[k + 1] && moves[n] == secondMoves[k];
      }
    }
  }

  lemma ThreeRunsJoin(first: seq<World>, m1: seq<Move>, second: seq<World>, m2: seq<Move>, third: seq<World>, m3: seq<Move>)
    requires IsRun(first, m1) && IsRun(second, m2) && IsRun(third, m3) && first[|m1|] == second[0] && second[|m2|] == third[0]
    ensures IsRun(first + second[1..] + third[1..], m1 + m2 + m3)
    ensures (first + second[1..] + third[1..])[|m1| + |m2| + |m3|] == third[|m3|]
  {
    RunsJoin(first, m1, second, m2);
    RunsJoin(first + second[1..], m1 + m2, third, m3);
  }

  function Asked(issuer: I.Issuer, operation: string, overlap: Option<int>): I.Issuer {
    I.Issuer(issuer.keys, issuer.tickets + [I.Ticket(operation, overlap, issuer.tail, I.Waiting)], Some(|issuer.tickets|))
  }

  /** A call whose idempotency key is new, up to its wait for the issuer. */
  function FirstAttempt(f: nat, request: Request, id: string): seq<Move> {
    [Service(Call(request)), Service(Step.Claim(f, id, true)), Ask(f)]
  }

  function Attempted(w: World, request: Request, id: string): World {
    var record := NewRecord(request, id, w.service.now);
    World(w.environment,
          w.service.(store := w.service.store[id := record],
                     flights := w.service.flights + [Flight(request, Awaiting(record, request.overlap, |w.issuer.tickets|))],
                     inFlight := w.service.inFlight[KeyOf(request) := |w.service.flights|]),
          Asked(w.issuer, id, request.overlap))
  }

  lemma FirstAttemptIsARun(w: World, request: Request, id: string) returns (worlds: seq<World>)
    requires request.environment == w.environment && KeyOf(request) !in w.service.inFlight && id !in w.service.store
    requires !Owned(w.service.store, request.environment, request.idempotencyKey)
    requires forall key :: key in w.issuer.keys ==> w.issuer.keys[key].operation != Some(id)
    ensures IsRun(worlds, FirstAttempt(|w.service.flights|, request, id)) && worlds[0] == w && worlds[3] == Attempted(w, request, id)
  {
    var moves := FirstAttempt(|w.service.flights|, request, id);
    var called := CredentialSafety.Apply(w, moves[0]);
    var claimed := CredentialSafety.Apply(called, moves[1]);
    worlds := [w, called, claimed, Attempted(w, request, id)];
    assert CredentialSafety.Apply(claimed, moves[2]) == Attempted(w, request, id);
  }

  /** A repeated call that finds its operation pending without a key, up to its wait for the issuer. */
  function Recovery(f: nat, request: Request, spare: string): seq<Move> {
    [Service(Call(request)), Service(Step.Claim(f, spare, true))] + [Service(Step.Reopen(f, true)), Ask(f)]
  }

  function Recovering(w: World, request: Request, id: string): World
    requires id in w.service.store
  {
    var record := w.service.store[id];
    World(w.environment,
          w.service.(store := w.service.store[id := Reopened(record)],
                     flights := w.service.flights + [Flight(request, Awaiting(record, Some(0), |w.issuer.tickets|))],
                     inFlight := w.service.inFlight[KeyOf(request) := |w.service.flights|]),
          Asked(w.issuer, id, Some(0)))
  }

  lemma ClaimFindsThePending(s: System, f: nat, request: Request, id: string, spare: string)
    requires f < |s.flights| && s.flights[f] == Flight(request, Claiming) && spare !in s.store
    requires WellFormed(s.store) && IsOwner(s.store, id, request) && s.store[id].fingerprint == FingerprintOf(request)
    requires s.store[id].state.Pending? && s.store[id].issuedKey.None?
    ensures CredentialService.Enabled(s, Step.Claim(f, spare, true))
    ensures CredentialService.Apply(s, Step.Claim(f, spare, true)) == Goto(s, f, Reopening(s.store[id]))
  {
    assert SameRequest(s.store[id], s.store[OwnerOf(s.store, request)]);
  }

  /** The world once the repeated call has found its operation. */
  function Found(w: World, request: Request, id: string): World
    requires id in w.service.store
  {
    w.(service := w.service.(flights := w.service.flights + [Flight(request, Reopening(w.service.store[id]))],
                             inFlight := w.service.inFlight[KeyOf(request) := |w.service.flights|]))
  }

  lemma FindingIsARun(w: World, request: Request, id: string, spare: string) returns (worlds: seq<World>)
    requires request.environment == w.environment && KeyOf(request) !in w.service.inFlight && spare !in w.service.store
    requires WellFormed(w.service.store) && IsOwner(w.service.store, id, request)
    requires w.service.store[id].fingerprint == FingerprintOf(request)
    requires w.service.store[id].state.Pending? && w.service.store[id].issuedKey.None?
    requires forall key :: key in w.issuer.keys ==> w.issuer.keys[key].operation != Some(spare)
    ensures IsRun(worlds, [Service(Call(request)), Service(Step.Claim(|w.service.flights|, spare, true))])
    ensures worlds[0] == w && worlds[2] == Found(w, request, id)
  {
    var called := CredentialSafety.Apply(w, Service(Call(request)));
    ClaimFindsThePending(called.service, |w.service.flights|, request, id, spare);
    worlds := [w, called, Found(w, request, id)];
  }

  lemma ReopeningIsARun(w: World, request: Request, id: string) returns (worlds: seq<World>)
    requires request.environment == w.environment && id in w.service.store && w.service.store[id].id == id
    ensures IsRun(worlds, [Service(Step.Reopen(|w.service.flights|, true)), Ask(|w.service.flights|)])
    ensures worlds[0] == Found(w, request, id) && worlds[2] == Recovering(w, request, id)
  {
    var found := Found(w, request, id);
    var reopened := CredentialSafety.Apply(found, Service(Step.Reopen(|w.service.flights|, true)));
    worlds := [found, reopened, Recovering(w, request, id)];
    assert CredentialSafety.Apply(reopened, Ask(|w.service.flights|)) == Recovering(w, request, id);
  }

  lemma RecoveryIsARun(w: World, request: Request, id: string, spare: string) returns (worlds: seq<World>)
    requires request.environment == w.environment && KeyOf(request) !in w.service.inFlight && spare !in w.service.store
    requires WellFormed(w.service.store) && IsOwner(w.service.store, id, request)
    requires w.service.store[id].fingerprint == FingerprintOf(request)
    requires w.service.store[id].state.Pending? && w.service.store[id].issuedKey.None?
    requires forall key :: key in w.issuer.keys ==> w.issuer.keys[key].operation != Some(spare)
    ensures IsRun(worlds, Recovery(|w.service.flights|, request, spare)) && worlds[0] == w && worlds[4] == Recovering(w, request, id)
  {
    var f := |w.service.flights|;
    var finding := FindingIsARun(w, request, id, spare);
    var reopening := ReopeningIsARun(w, request, id);
    RunsJoin(finding, [Service(Call(request)), Service(Step.Claim(f, spare, true))],
             reopening, [Service(Step.Reopen(f, true)), Ask(f)]);
    worlds := finding + reopening[1..];
  }

  ghost predicate AllSettled(s: I.Issuer) {
    (forall i :: 0 <= i < |s.tickets| ==> s.tickets[i].stage.Settled?) && (s.tail.Some? ==> s.tail.value < |s.tickets|)
  }

  /** The issuer serves the request that was asked last, with nothing between. */
  function Serving(t: nat, found: Option<string>, newKey: string, now: int): seq<Move> {
    [Issuing(I.Start(t)), Issuing(I.Snapshot(t, found))]
    + [Issuing(if found.Some? then I.Step.Rotation(t, newKey, now) else I.Creation(t, newKey))]
  }

  lemma SnapshotIsARun(w: World, before: I.Issuer, operation: string, overlap: Option<int>, found: Option<string>)
    returns (worlds: seq<World>)
    requires w.issuer == Asked(before, operation, overlap) && AllSettled(before)
    requires if found.Some? then K.IsStanding(before.keys, found.value) else K.NoneStanding(before.keys)
    ensures IsRun(worlds, [Issuing(I.Start(|before.tickets|)), Issuing(I.Snapshot(|before.tickets|, found))]) && worlds[0] == w
    ensures worlds[2].environment == w.environment && worlds[2].service == w.service
    ensures var stage := if found.Some? then I.Rotating(found.value) else I.Creating;
            worlds[2].issuer == I.Issuer(before.keys, before.tickets + [I.Ticket(operation, overlap, before.tail, stage)],
                                         Some(|before.tickets|))
  {
    var t := |before.tickets|;
    var started := CredentialSafety.Apply(w, Issuing(I.Start(t)));
    worlds := [w, started, CredentialSafety.Apply(started, Issuing(I.Snapshot(t, found)))];
  }

  lemma ServingIsARun(w: World, before: I.Issuer, operation: string, overlap: Option<int>, found: Option<string>, newKey: string)
    returns (worlds: seq<World>)
    requires w.issuer == Asked(before, operation, overlap) && AllSettled(before) && newKey !in before.keys
    requires if found.Some? then K.IsStanding(before.keys, found.value) else K.NoneStanding(before.keys)
    requires overlap.Some? ==> ValidOverlap(overlap.value)
    ensures IsRun(worlds, Serving(|before.tickets|, found, newKey, w.service.now)) && worlds[0] == w
    ensures worlds[3].environment == w.environment && worlds[3].service == w.service && AllSettled(worlds[3].issuer)
    ensures |worlds[3].issuer.tickets| == |before.tickets| + 1
    ensures worlds[3].issuer.keys
            == if found.Some? then K.Rotate(before.keys, found.value, overlap, None, newKey, Some(operation), w.service.now).value.table
               else K.Create(before.keys, newKey, K.MERCHANT_KEY_NAME, None, Some(operation))
  {
    var (t, mint) := (|before.tickets|, Serving(|before.tickets|, found, newKey, w.service.now)[2]);
    var snapshot := SnapshotIsARun(w, before, operation, overlap, found);
    var minted := CredentialSafety.Apply(snapshot[2], mint);
    RunsJoin(snapshot, [Issuing(I.Start(t)), Issuing(I.Snapshot(t, found))], [snapshot[2], minted], [mint]);
    worlds := snapshot + [snapshot[2], minted][1..];
  }

  lemma CrashIsARun(w: World) returns (worlds: seq<World>)
    requires AllSettled(w.issuer)
    ensures IsRun(worlds, [CrashBoth]) && worlds[0] == w && worlds[1].environment == w.environment
    ensures var s := worlds[1].service;
            && s.now == w.service.now && s.store == w.service.store && s.inFlight == map[] && |s.flights| == |w.service.flights|
    ensures worlds[1].issuer == I.Issuer(w.issuer.keys, w.issuer.tickets, None)
  {
    worlds := [w, CredentialSafety.Apply(w, CrashBoth)];
    assert I.Abandon(w.issuer.tickets) == w.issuer.tickets;
  }

  /** The operation's first attempt gets a key, and the process dies before the service is told. */
  function Interrupted(request: Request, id: string, newKey: string, now: int): seq<Move> {
    FirstAttempt(0, request, id) + Serving(0, None, newKey, now) + [CrashBoth]
  }

  lemma InterruptedIsARun(w: World, request: Request, id: string, newKey: string) returns (worlds: seq<World>, after: World)
    requires Initial(w) && K.NoneStanding(w.issuer.keys) && request.environment == w.environment && newKey !in w.issuer.keys
    requires request.overlap.Some? ==> ValidOverlap(request.overlap.value)
    ensures IsRun(worlds, Interrupted(request, id, newKey, w.service.now)) && worlds[0] == w && worlds[7] == after
    ensures after.environment == w.environment && after.service.now == w.service.now && after.service.inFlight == map[]
    ensures after.service.store == map[id := NewRecord(request, id, w.service.now)] && |after.service.flights| == 1
    ensures AllSettled(after.issuer) && |after.issuer.tickets| == 1
    ensures after.issuer.keys == K.Create(w.issuer.keys, newKey, K.MERCHANT_KEY_NAME, None, Some(id))
  {
    var attempt := FirstAttemptIsARun(w, request, id);
    var served := ServingIsARun(attempt[3], w.issuer, id, request.overlap, None, newKey);
    RunsJoin(attempt, FirstAttempt(0, request, id), served, Serving(0, None, newKey, w.service.now));
    var crash := CrashIsARun(served[3]);
    RunsJoin(attempt + served[1..], FirstAttempt(0, request, id) + Serving(0, None, newKey, w.service.now), crash, [CrashBoth]);
    worlds, after := attempt + served[1..] + crash[1..], crash[1];
  }

  lemma AttemptIsServed(w: World, request: Request, id: string, found: string, newKey: string) returns (worlds: seq<World>, after: World)
    requires AllSettled(w.issuer) && K.IsStanding(w.issuer.keys, found) && newKey !in w.issuer.keys
    requires request.environment == w.environment && KeyOf(request) !in w.service.inFlight && id !in w.service.store
    requires !Owned(w.service.store, request.environment, request.idempotencyKey)
    requires forall key :: key in w.issuer.keys ==> w.issuer.keys[key].operation != Some(id)
    requires request.overlap.Some? ==> ValidOverlap(request.overlap.value)
    ensures IsRun(worlds, FirstAttempt(|w.service.flights|, request, id) + Serving(|w.issuer.tickets|, Some(found), newKey, w.service.now))
    ensures worlds[0] == w && worlds[6] == after
    ensures after.environment == w.environment && after.service == Attempted(w, request, id).service
    ensures AllSettled(after.issuer) && |after.issuer.tickets| == |w.issuer.tickets| + 1
    ensures after.issuer.keys == K.Rotate(w.issuer.keys, found, request.overlap, None, newKey, Some(id), w.service.now).value.table
  {
    var attempt := FirstAttemptIsARun(w, request, id);
    var served := ServingIsARun(attempt[3], w.issuer, id, request.overlap, Some(found), newKey);
    RunsJoin(attempt, FirstAttempt(|w.service.flights|, request, id),
             served, Serving(|w.issuer.tickets|, Some(found), newKey, w.service.now));
    worlds, after := attempt + served[1..], served[3];
  }

  lemma RecoveryIsServed(w: World, request: Request, id: string, spare: string, found: string, newKey: string)
    returns (worlds: seq<World>, after: World)
    requires AllSettled(w.issuer) && K.IsStanding(w.issuer.keys, found) && newKey !in w.issuer.keys
    requires request.environment == w.environment && KeyOf(request) !in w.service.inFlight && spare !in w.service.store
    requires WellFormed(w.service.store) && IsOwner(w.service.store, id, request)
    requires w.service.store[id].fingerprint == FingerprintOf(request)
    requires w.service.store[id].state.Pending? && w.service.store[id].issuedKey.None?
    requires forall key :: key in w.issuer.keys ==> w.issuer.keys[key].operation != Some(spare)
    ensures IsRun(worlds, Recovery(|w.service.flights|, request, spare) + Serving(|w.issuer.tickets|, Some(found), newKey, w.service.now))
    ensures worlds[0] == w && worlds[7] == after && after.service.now == w.service.now
    ensures after.issuer.keys == K.Rotate(w.issuer.keys, found, Some(0), None, newKey, Some(id), w.service.now).value.table
  {
    var recovery := RecoveryIsARun(w, request, id, spare);
    var served := ServingIsARun(recovery[4], w.issuer, id, Some(0), Some(found), newKey);
    RunsJoin(recovery, Recovery(|w.service.flights|, request, spare),
             served, Serving(|w.issuer.tickets|, Some(found), newKey, w.service.now));
    worlds, after := recovery + served[1..], served[3];
  }

  /** Two operations, the ids drawn for their calls, and the three keys that are made. */
  datatype Scenario = Scenario(first: Request, second: Request, a: string, b: string, spare: string, k1: string, k2: string, k3: string)

  /** The first operation is interrupted, the second one issues, and the first one recovers. */
  function OrphanScenario(x: Scenario, now: int): seq<Move> {
    Interrupted(x.first, x.a, x.k1, now)
    + (FirstAttempt(1, x.second, x.b) + Serving(1, Some(x.k1), x.k2, now))
    + (Recovery(2, x.first, x.spare) + Serving(2, Some(x.k2), x.k3, now))
  }

  /** Two operations of one environment, and ids and keys that are new and distinct. */
  ghost predicate Possible(x: Scenario, w: World) {
    && x.first.environment == x.second.environment == w.environment && x.first.idempotencyKey != x.second.idempotencyKey
    && (x.first.overlap.Some? ==> ValidOverlap(x.first.overlap.value))
    && (x.second.overlap.Some? ==> ValidOverlap(x.second.overlap.value) && x.second.overlap.value > 0)
    && x.a != x.b && x.a != x.spare && x.b != x.spare && x.k1 != x.k2 && x.k1 != x.k3 && x.k2 != x.k3
    && x.k1 !in w.issuer.keys && x.k2 !in w.issuer.keys && x.k3 !in w.issuer.keys
  }

  lemma KeysOfTheScenario(x: Scenario, w: World, one: K.Table, two: K.Table, three: K.Table)
    requires Initial(w) && K.NoneStanding(w.issuer.keys) && Possible(x, w)
    requires one == K.Create(w.issuer.keys, x.k1, K.MERCHANT_KEY_NAME, None, Some(x.a))
    requires two == K.Rotate(one, x.k1, x.second.overlap, None, x.k2, Some(x.b), w.service.now).value.table
    requires three == K.Rotate(two, x.k2, Some(0), None, x.k3, Some(x.a), w.service.now).value.table
    ensures K.IsStanding(one, x.k1) && K.IsStanding(two, x.k2)
    ensures forall key :: key in one ==> one[key].operation != Some(x.b)
    ensures forall key :: key in two ==> two[key].operation != Some(x.spare)
    ensures x.k1 in three && x.k2 in three && x.k3 in three
    ensures three[x.k1].operation == three[x.k3].operation == Some(x.a) && three[x.k2].operation == Some(x.b)
    ensures K.Live(three[x.k1], w.service.now) && K.Live(three[x.k3], w.service.now) && !K.Live(three[x.k2], w.service.now)
  {
  }

  lemma TheOtherIssues(w: World, x: Scenario) returns (first: seq<World>, second: seq<World>, after: World)
    requires Initial(w) && K.NoneStanding(w.issuer.keys) && Possible(x, w)
    ensures IsRun(first, Interrupted(x.first, x.a, x.k1, w.service.now)) && first[0] == w
    ensures IsRun(second, FirstAttempt(1, x.second, x.b) + Serving(1, Some(x.k1), x.k2, w.service.now))
    ensures first[7] == second[0] && second[6] == after
    ensures after.environment == w.environment && after.service.now == w.service.now && |after.service.flights| == 2
    ensures after.service.inFlight == map[KeyOf(x.second) := 1]
    ensures after.service.store == map[x.a := NewRecord(x.first, x.a, w.service.now), x.b := NewRecord(x.second, x.b, w.service.now)]
    ensures AllSettled(after.issuer) && |after.issuer.tickets| == 2
    ensures var one := K.Create(w.issuer.keys, x.k1, K.MERCHANT_KEY_NAME, None, Some(x.a));
            after.issuer.keys == K.Rotate(one, x.k1, x.second.overlap, None, x.k2, Some(x.b), w.service.now).value.table
  {
    var one;
    first, one := InterruptedIsARun(w, x.first, x.a, x.k1);
    assert K.IsStanding(one.issuer.keys, x.k1);
    second, after := AttemptIsServed(one, x.second, x.b, x.k1, x.k2);
  }

  lemma FirstIsPending(x: Scenario, w: World, store: Records)
    requires Possible(x, w) && store == map[x.a := NewRecord(x.first, x.a, w.service.now), x.b := NewRecord(x.second, x.b, w.service.now)]
    ensures WellFormed(store) && IsOwner(store, x.a, x.first) && x.spare !in store
    ensures store[x.a].fingerprint == FingerprintOf(x.first) && store[x.a].state.Pending? && store[x.a].issuedKey.None?
    ensures KeyOf(x.first) != KeyOf(x.second)
  {
    assert store.Keys == {x.a, x.b};
    assert !SameRequest(store[x.a], store[x.b]);
  }

  lemma TheFirstRecovers(w: World, x: Scenario, after: World) returns (third: seq<World>, end: World)
    requires Initial(w) && K.NoneStanding(w.issuer.keys) && Possible(x, w)
    requires after.environment == w.environment && after.service.now == w.service.now && |after.service.flights| == 2
    requires after.service.inFlight == map[KeyOf(x.second) := 1]
    requires after.service.store == map[x.a := NewRecord(x.first, x.a, w.service.now), x.b := NewRecord(x.second, x.b, w.service.now)]
    requires AllSettled(after.issuer) && |after.issuer.tickets| == 2
    requires var one := K.Create(w.issuer.keys, x.k1, K.MERCHANT_KEY_NAME, None, Some(x.a));
             after.issuer.keys == K.Rotate(one, x.k1, x.second.overlap, None, x.k2, Some(x.b), w.service.now).value.table
    ensures IsRun(third, Recovery(2, x.first, x.spare) + Serving(2, Some(x.k2), x.k3, w.service.now))
    ensures third[0] == after && third[7] == end
    ensures LiveAt(end, x.k1) && LiveAt(end, x.k3) && x.k2 in end.issuer.keys && !LiveAt(end, x.k2)
    ensures end.issuer.keys[x.k1].operation == end.issuer.keys[x.k3].operation == Some(x.a)
    ensures end.issuer.keys[x.k2].operation == Some(x.b)
  {
    var one := K.Create(w.issuer.keys, x.k1, K.MERCHANT_KEY_NAME, None, Some(x.a));
    var two := after.issuer.keys;
    KeysOfTheScenario(x, w, one, two, K.Rotate(two, x.k2, Some(0), None, x.k3, Some(x.a), w.service.now).value.table);
    FirstIsPending(x, w, after.service.store);
    third, end := RecoveryIsServed(after, x.first, x.a, x.spare, x.k2, x.k3);
  }

  /**
   When another operation issues between the crash and the recovery, the zero overlap falls on
   that operation's key and the orphan keeps the overlap it was given: the first operation has two
   live keys and the other operation's key is dead.
   */
  lemma AnotherIssuanceKeepsTheOrphanAlive(w: World, x: Scenario) returns (worlds: seq<World>, final: World)
    requires Initial(w) && K.NoneStanding(w.issuer.keys) && Possible(x, w)
    ensures IsRun(worlds, OrphanScenario(x, w.service.now)) && worlds[0] == w && worlds[|worlds| - 1] == final
    ensures LiveAt(final, x.k1) && LiveAt(final, x.k3) && x.k2 in final.issuer.keys && !LiveAt(final, x.k2)
    ensures final.issuer.keys[x.k1].operation == final.issuer.keys[x.k3].operation == Some(x.a)
    ensures final.issuer.keys[x.k2].operation == Some(x.b)
  {
    var now := w.service.now;
    var first, second, after := TheOtherIssues(w, x);
    var third, end := TheFirstRecovers(w, x, after);
    var m1 := Interrupted(x.first, x.a, x.k1, now);
    var m2 := FirstAttempt(1, x.second, x.b) + Serving(1, Some(x.k1), x.k2, now);
    ThreeRunsJoin(first, m1, second, m2, third, Recovery(2, x.first, x.spare) + Serving(2, Some(x.k2), x.k3, now));
    worlds, final := first + second[1..] + third[1..], end;
  }
}
