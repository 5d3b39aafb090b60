/** Operator calls in flight at once: each reads the directory, and the repository writes later. */
module OperatorRuns {
  import opened Prelude
  import opened Expiry
  import opened Operators
  import opened Sets

  /** `drawn` is a history field: the hash of every secret that was ever minted, by key id. */
  datatype State = State(d: Directory, pending: map<nat, Write>, drawn: map<string, string>, now: int)

  datatype Step = Tick(instant: int) | Begin(caller: nat, call: Call) | Settle(caller: nat)

  predicate Mints(call: Call) {
    call.CreateOperator? || call.CreateKey? || call.RotateKey?
  }

  /** Identifiers and secrets are random: none is drawn twice.  An actor with an operator was authenticated at some time. */
  predicate Enabled(s: State, step: Step) {
    match step
    case Tick(instant) => s.now <= instant
    case Begin(c, call) =>
      && c !in s.pending
      && (call.actor.operator.Some? ==> call.actor.operator.value.0 in s.d.operators)
      && (Mints(call) ==> call.keyId !in s.drawn && call.secretHash !in s.drawn.Values)
    case Settle(c) => c in s.pending
  }

  function Begun(s: State, c: nat, call: Call): State {
    var drawn := if Mints(call) then s.drawn[call.keyId := call.secretHash] else s.drawn;
    match Decide(s.d, call, s.now)
    case Ok(write) => s.(pending := s.pending[c := write], drawn := drawn)
    case Err(_) => s.(drawn := drawn)
  }

  function Settled(s: State, c: nat): State
    requires c in s.pending
  {
    var rest := s.(pending := s.pending - {c});
    match Commit(s.d, s.pending[c])
    case Ok(d) => rest.(d := d)
    case Err(_) => rest
  }

  function Apply(s: State, step: Step): State
    requires Enabled(s, step)
  {
    match step
    case Tick(instant) => s.(now := instant)
    case Begin(c, call) => Begun(s, c, call)
    case Settle(c) => Settled(s, c)
  }

  ghost predicate IsRun(states: seq<State>, steps: seq<Step>) {
    && |states| == |steps| + 1 && states[0].d == Directory(map[], map[]) && states[0].pending == map[] && states[0].drawn == map[]
    && forall n :: 0 <= n < |steps| ==> Enabled(states[n], steps[n]) && states[n + 1] == Apply(states[n], steps[n])
  }

  /** The clock moves on by itself, and with it alone every key with an expiry comes to its end. */
  lemma TimeEndsKeys(s: State, instant: int, k: string)
    requires Enabled(s, Tick(instant)) && k in s.d.keys
    ensures var after := Apply(s, Tick(instant));
            && after == s.(now := instant)
            && (s.d.keys[k].expires.Some? && s.d.keys[k].expires.value <= instant ==> !Usable(after.d.keys[k], after.now))
            && (s.d.keys[k].expires.None? ==> (Usable(after.d.keys[k], after.now) <==> Usable(s.d.keys[k], s.now)))
  {
  }

  // ---------- a directory with operators has an active platform admin ----------

  /** A deactivation that saw nothing to guard. */
  predicate Unguarded(write: Write, id: string) {
    write.SetActive? && write.id == id && !write.active && !write.guard
  }

  /** No platform admin is reactivated while an unguarded deactivation of it is on its way. */
  predicate Calm(s: State, step: Step) {
    step.Settle? && step.caller in s.pending && s.pending[step.caller].SetActive? && s.pending[step.caller].active ==>
      forall c :: c in s.pending ==> !Unguarded(s.pending[c], s.pending[step.caller].id)
  }

  predicate WriteKeepsAdmins(d: Directory, write: Write) {
    match write
    case AddOperator(_, operator, _, _, bootstrap) =>
      operator.active && (if bootstrap then operator.role.PlatformAdmin? else d.operators != map[])
    case SetActive(id, active, guard) => id in d.operators && (!active && !guard ==> !IsActiveAdmin(d, id))
    case AddKey(_, _) => true
    case Replace(_, _, _, _) => true
    case Revoke(_, _) => true
    case Nothing => true
  }

  ghost predicate HasAdmin(d: Directory) {
    d.operators != map[] ==> exists id :: IsActiveAdmin(d, id)
  }

  ghost predicate AdminInv(s: State) {
    HasAdmin(s.d) && forall c :: c in s.pending ==> WriteKeepsAdmins(s.d, s.pending[c])
  }

  /** A guarded deactivation leaves another active admin. */
  lemma GuardLeavesAnother(d: Directory, id: string)
    requires |ActiveAdmins(d)| > 1
    ensures exists other :: other != id && IsActiveAdmin(d, other)
  {
    if forall other :: IsActiveAdmin(d, other) ==> other == id {
      assert ActiveAdmins(d) <= {id};
      SubsetSize(ActiveAdmins(d), {id});
    }
  }

  lemma DecideKeepsAdmins(s: State, c: nat, call: Call)
    requires AdminInv(s) && Enabled(s, Begin(c, call))
    ensures AdminInv(Begun(s, c, call))
  {
    var decided := Decide(s.d, call, s.now);
    if decided.Ok? {
      assert WriteKeepsAdmins(s.d, decided.value);
    }
  }

  lemma CommitKeepsAdmin(d: Directory, write: Write)
    requires HasAdmin(d) && WriteKeepsAdmins(d, write) && Commit(d, write).Ok?
    ensures HasAdmin(Commit(d, write).value)
  {
    var after := Commit(d, write).value;
    if write.SetActive? {
      if !write.active && write.guard && IsActiveAdmin(d, write.id) {
        GuardLeavesAnother(d, write.id);
        var other :| other != write.id && IsActiveAdmin(d, other);
        assert IsActiveAdmin(after, other);
      } else {
        var id :| IsActiveAdmin(d, id);
        assert IsActiveAdmin(after, id);
      }
    } else if write.AddOperator? {
      if d.operators == map[] {
        assert IsActiveAdmin(after, write.id);
      } else {
        var id :| IsActiveAdmin(d, id);
        assert IsActiveAdmin(after, id);
      }
    } else {
      assert after.operators == d.operators;
      if d.operators != map[] {
        var id :| IsActiveAdmin(d, id);
        assert IsActiveAdmin(after, id);
      }
    }
  }

  lemma OthersKeepTheirs(d: Directory, write: Write, other: Write)
    requires WriteKeepsAdmins(d, write) && WriteKeepsAdmins(d, other) && Commit(d, write).Ok?
    requires write.SetActive? && write.active ==> !Unguarded(other, write.id)
    ensures WriteKeepsAdmins(Commit(d, write).value, other)
  {
  }

  lemma AdminStep(s: State, step: Step)
    requires AdminInv(s) && Enabled(s, step) && Calm(s, step)
    ensures AdminInv(Apply(s, step))
  {
    match step
    case Tick(_) =>
    case Begin(c, call) => DecideKeepsAdmins(s, c, call);
    case Settle(c) =>
      if Commit(s.d, s.pending[c]).Ok? {
        CommitKeepsAdmin(s.d, s.pending[c]);
        forall other | other in s.pending && other != c
          ensures WriteKeepsAdmins(Commit(s.d, s.pending[c]).value, s.pending[other])
        {
          OthersKeepTheirs(s.d, s.pending[c], s.pending[other]);
        }
      }
  }

  ghost predicate CalmRun(states: seq<State>, steps: seq<Step>) {
    IsRun(states, steps) && forall n :: 0 <= n < |steps| ==> Calm(states[n], steps[n])
  }

  lemma {:induction false} AdminRun(states: seq<State>, steps: seq<Step>, n: nat)
    requires CalmRun(states, steps) && n < |states|
    ensures AdminInv(states[n])
  {
    if n > 0 {
      AdminRun(states, steps, n - 1);
      AdminStep(states[n - 1], steps[n - 1]);
    }
  }

  /** The platform is never stranded, however the calls interleave, unless a reactivation crosses a deactivation. */
  lemma NeverStranded(states: seq<State>, steps: seq<Step>, n: nat)
    requires CalmRun(states, steps) && n < |states| && states[n].d.operators != map[]
    ensures exists id :: IsActiveAdmin(states[n].d, id)
  {
    AdminRun(states, steps, n);
  }

  /** Exactly the unguarded deactivation of the last active admin strands a directory. */
  lemma StrandsExactly(d: Directory, write: Write)
    requires HasAdmin(d) && d.operators != map[] && Commit(d, write).Ok?
    ensures HasAdmin(Commit(d, write).value)
            <==> !(write.SetActive? && !write.active && !write.guard && ActiveAdmins(d) == {write.id})
  {
    var after := Commit(d, write).value;
    var id :| IsActiveAdmin(d, id);
    assert id in ActiveAdmins(d);
    assert ActiveAdmins(d) == {id} ==> |ActiveAdmins(d)| == 1;
    if write.SetActive? && !write.active && !write.guard && ActiveAdmins(d) == {write.id} {
      forall other ensures !IsActiveAdmin(after, other) {
        assert other in ActiveAdmins(d) <==> other == write.id;
      }
    } else if write.SetActive? && !write.active && id == write.id {
      assert ActiveAdmins(d) != {id};
      var other :| other in ActiveAdmins(d) && other != id;
      assert IsActiveAdmin(after, other);
    } else {
      assert IsActiveAdmin(after, id);
    }
  }

  /** How it happens: a deactivation that saw the operator inactive crosses its reactivation. */
  lemma ReactivationCrossesDeactivation(d: Directory, actor: Principal, a: string, b: string, now: int)
    requires IsAdmin(actor) && IsActiveAdmin(d, a) && ActiveAdmins(d) == {a}
    requires b in d.operators && d.operators[b].role.PlatformAdmin? && !d.operators[b].active
    ensures var stale := Decide(d, UpdateOperator(actor, b, false), now);
            var d1 := Commit(d, SetActive(b, true, false));
            && Decide(d, UpdateOperator(actor, b, true), now) == Ok(SetActive(b, true, false))
            && stale == Ok(SetActive(b, false, false)) && d1.Ok?
            && Decide(d1.value, UpdateOperator(actor, a, false), now) == Ok(SetActive(a, false, true))
            && var d2 := Commit(d1.value, SetActive(a, false, true));
            && d2.Ok?
            && Commit(d2.value, stale.value).Ok? && !HasAdmin(Commit(d2.value, stale.value).value)
  {
    assert !IsActiveAdmin(d, b);
    var d1 := Commit(d, SetActive(b, true, false)).value;
    assert ActiveAdmins(d1) == {a, b} by {
      forall id ensures IsActiveAdmin(d1, id) <==> id == a || id == b {
        assert id in ActiveAdmins(d) <==> id == a;
      }
    }
    var d2 := Commit(d1, SetActive(a, false, true)).value;
    assert ActiveAdmins(d2) == {b} by {
      forall id ensures IsActiveAdmin(d2, id) <==> id == b {
        assert id in ActiveAdmins(d1) <==> id == a || id == b;
      }
    }
    assert HasAdmin(d2) by {
      assert b in ActiveAdmins(d2);
    }
    StrandsExactly(d2, SetActive(b, false, false));
  }

  // ---------- one bootstrap ----------

  predicate Bootstraps(s: State, step: Step) {
    && step.Settle? && step.caller in s.pending && s.pending[step.caller].AddOperator? && s.pending[step.caller].bootstrap
    && Commit(s.d, s.pending[step.caller]).Ok?
  }

  lemma {:induction false} NeverEmptyAgain(states: seq<State>, steps: seq<Step>, m: nat, n: nat)
    requires IsRun(states, steps) && m <= n < |states| && states[m].d.operators != map[]
    ensures states[m].d.operators.Keys <= states[n].d.operators.Keys
  {
    if m < n {
      NeverEmptyAgain(states, steps, m, n - 1);
    }
  }

  /** However many callers find an empty directory at once, one of them bootstraps it. */
  lemma OneBootstrap(states: seq<State>, steps: seq<Step>, m: nat, n: nat)
    requires IsRun(states, steps) && m < |steps| && n < |steps|
    requires Bootstraps(states[m], steps[m]) && Bootstraps(states[n], steps[n])
    ensures m == n
  {
    if m < n {
      NeverEmptyAgain(states, steps, m + 1, n);
    } else if n < m {
      NeverEmptyAgain(states, steps, n + 1, m);
    }
  }

  // ---------- keys ----------

  predicate Carries(write: Write) {
    write.AddOperator? || write.AddKey? || write.Replace?
  }

  predicate LineageOk(key: Key) {
    && key.lineage != [] && NotLater(key.expires, key.lineage[|key.lineage| - 1])
    && forall i, j :: 0 <= i < j < |key.lineage| ==> NotLater(key.lineage[j], key.lineage[i])
  }

  predicate Minted(s: State, keyId: string, key: Key) {
    keyId in s.drawn && s.drawn[keyId] == key.secretHash && LineageOk(key)
  }

  /** A key on its way is new; the key it replaces exists, and the end it is given lies within what it was granted. */
  predicate WriteOk(s: State, write: Write) {
    && (Carries(write) ==> Minted(s, write.keyId, write.key) && write.keyId !in s.d.keys)
    && (write.Replace? ==>
          && write.replaced in s.d.keys
          && var lineage := s.d.keys[write.replaced].lineage;
             lineage != [] && NotLater(Some(write.end), lineage[|lineage| - 1]))
  }

  ghost predicate KeyInv(s: State) {
    && (forall k, l :: k in s.drawn && l in s.drawn && s.drawn[k] == s.drawn[l] ==> k == l)
    && (forall k :: k in s.d.keys ==> Minted(s, k, s.d.keys[k]))
    && (forall c :: c in s.pending ==> WriteOk(s, s.pending[c]))
    && (forall b, c :: b in s.pending && c in s.pending && b != c && Carries(s.pending[b]) && Carries(s.pending[c]) ==>
          s.pending[b].keyId != s.pending[c].keyId)
  }

  lemma DecideIsOk(s: State, c: nat, call: Call)
    requires KeyInv(s) && Enabled(s, Begin(c, call)) && Decide(s.d, call, s.now).Ok?
    ensures WriteOk(Begun(s, c, call), Decide(s.d, call, s.now).value)
  {
    var (write, after) := (Decide(s.d, call, s.now).value, Begun(s, c, call));
    WriteNamesItsKey(s.d, call, s.now);
    if Carries(write) {
      assert call.keyId in s.d.keys ==> Minted(s, call.keyId, s.d.keys[call.keyId]);
      assert after.drawn[call.keyId] == call.secretHash;
    }
    if call.RotateKey? {
      assert Minted(s, call.rotated, s.d.keys[call.rotated]);
      RotationInherits(s.d, call, s.now);
    }
  }

  lemma WriteNamesItsKey(d: Directory, call: Call, now: int)
    requires Decide(d, call, now).Ok?
    ensures var write := Decide(d, call, now).value;
            && (Carries(write) ==> Mints(call) && write.keyId == call.keyId && write.key.secretHash == call.secretHash)
            && (Carries(write) && !write.Replace? ==> write.key.lineage == [write.key.expires])
            && (write.Replace? <==> call.RotateKey?)
  {
  }

  lemma DrawingKeepsKeys(s: State, keyId: string, secretHash: string)
    requires KeyInv(s) && keyId !in s.drawn && secretHash !in s.drawn.Values
    ensures KeyInv(s.(drawn := s.drawn[keyId := secretHash]))
  {
    var after := s.(drawn := s.drawn[keyId := secretHash]);
    assert forall k :: k in s.drawn ==> s.drawn[k] in s.drawn.Values;
    forall k | k in after.d.keys ensures Minted(after, k, after.d.keys[k]) {
      assert Minted(s, k, s.d.keys[k]);
    }
    forall b | b in after.pending ensures WriteOk(after, after.pending[b]) {
      assert WriteOk(s, s.pending[b]);
    }
  }

  lemma AddingKeepsKeys(s: State, c: nat, write: Write)
    requires KeyInv(s) && c !in s.pending && WriteOk(s, write)
    requires Carries(write) ==> forall b :: b in s.pending && Carries(s.pending[b]) ==> s.pending[b].keyId != write.keyId
    ensures KeyInv(s.(pending := s.pending[c := write]))
  {
    var after := s.(pending := s.pending[c := write]);
    forall b | b in after.pending ensures WriteOk(after, after.pending[b]) {
      assert b != c ==> WriteOk(s, s.pending[b]);
    }
  }

  lemma BeginKeepsKeys(s: State, c: nat, call: Call)
    requires KeyInv(s) && Enabled(s, Begin(c, call))
    ensures KeyInv(Begun(s, c, call))
  {
    var drawn := if Mints(call) then s.(drawn := s.drawn[call.keyId := call.secretHash]) else s;
    if Mints(call) {
      DrawingKeepsKeys(s, call.keyId, call.secretHash);
    }
    if Decide(s.d, call, s.now).Ok? {
      var write := Decide(s.d, call, s.now).value;
      DecideIsOk(s, c, call);
      WriteNamesItsKey(s.d, call, s.now);
      forall b | b in s.pending && Carries(s.pending[b]) && Carries(write) ensures s.pending[b].keyId != write.keyId {
        assert WriteOk(s, s.pending[b]);
      }
      AddingKeepsKeys(drawn, c, write);
    }
  }

  /** A settled write touches the keys it names and no other, and these only in expiry and activity. */
  lemma CommitKeys(s: State, write: Write, k: string)
    requires WriteOk(s, write) && k in s.d.keys && Commit(s.d, write).Ok?
    ensures var after := Commit(s.d, write).value;
            && k in after.keys
            && after.keys[k].secretHash == s.d.keys[k].secretHash && after.keys[k].operator == s.d.keys[k].operator
            && after.keys[k].lineage == s.d.keys[k].lineage
            && (after.keys[k].active ==> s.d.keys[k].active) && (s.d.keys[k].revokedAt.Some? ==> after.keys[k].revokedAt.Some?)
            && after.keys[k].expires == if write.Replace? && write.replaced == k then Some(write.end) else s.d.keys[k].expires
  {
  }

  lemma CommitAdds(s: State, write: Write, k: string)
    requires WriteOk(s, write) && Commit(s.d, write).Ok? && k in Commit(s.d, write).value.keys && k !in s.d.keys
    ensures Carries(write) && k == write.keyId && Commit(s.d, write).value.keys[k] == write.key
  {
  }

  lemma SettleKeepsKeys(s: State, c: nat)
    requires KeyInv(s) && c in s.pending
    ensures KeyInv(Settled(s, c))
  {
    var write := s.pending[c];
    assert WriteOk(s, write);
    if Commit(s.d, write).Ok? {
      var after := Settled(s, c);
      forall k | k in after.d.keys ensures Minted(after, k, after.d.keys[k]) {
        if k in s.d.keys {
          CommitKeys(s, write, k);
        } else {
          CommitAdds(s, write, k);
        }
      }
      forall b | b in after.pending ensures WriteOk(after, after.pending[b]) {
        var other := s.pending[b];
        assert WriteOk(s, other);
        if Carries(other) && other.keyId in after.d.keys {
          CommitAdds(s, write, other.keyId);
        }
        if other.Replace? {
          CommitKeys(s, write, other.replaced);
        }
      }
    }
  }

  lemma {:induction false} KeyRun(states: seq<State>, steps: seq<Step>, n: nat)
    requires IsRun(states, steps) && n < |states|
    ensures KeyInv(states[n])
  {
    if n > 0 {
      KeyRun(states, steps, n - 1);
      match steps[n - 1]
      case Tick(_) =>
        forall c | c in states[n].pending ensures WriteOk(states[n], states[n].pending[c]) {
          assert WriteOk(states[n - 1], states[n - 1].pending[c]);
        }
      case Begin(c, call) => BeginKeepsKeys(states[n - 1], c, call);
      case Settle(c) => SettleKeepsKeys(states[n - 1], c);
    }
  }

  /** Along any chain of rotations, expiries never grow, even when calls interleave. */
  lemma ChainsNeverGrow(states: seq<State>, steps: seq<Step>, n: nat, k: string, i: nat)
    requires IsRun(states, steps) && n < |states| && k in states[n].d.keys
    ensures var key := states[n].d.keys[k];
            key.lineage != [] && (i < |key.lineage| ==> NotLater(key.expires, key.lineage[i]))
  {
    KeyRun(states, steps, n);
    var key := states[n].d.keys[k];
    assert Minted(states[n], k, key);
    if i < |key.lineage| {
      assert NotLater(key.lineage[|key.lineage| - 1], key.lineage[i]);
    }
  }

  /** What one rotation grants: never more than the rotated key has, which itself ends with the overlap. */
  lemma RotationInherits(d: Directory, call: Call, now: int)
    requires call.RotateKey? && Decide(d, call, now).Ok?
    ensures var (write, existing) := (Decide(d, call, now).value, d.keys[call.rotated]);
            && write.Replace? && write.replaced == call.rotated && Usable(existing, now)
            && write.key.lineage == existing.lineage + [write.key.expires]
            && NotLater(write.key.expires, existing.expires) && NotLater(Some(write.end), existing.expires)
            && (write.key.expires == existing.expires || (write.key.expires == call.expires && !Expired(call.expires, now)))
            && var seconds := if call.overlap.Some? then call.overlap.value else DEFAULT_ROTATION_OVERLAP_SECONDS;
               && ValidOverlap(seconds) && write.end <= now + seconds * 1_000
               && (write.end == now + seconds * 1_000 || existing.expires == Some(write.end))
  {
  }

  // ---------- a dead key stays dead ----------

  /** No two rotations of one key are in flight together. */
  predicate Apart(s: State, step: Step) {
    step.Begin? && step.call.RotateKey? ==>
      forall c :: c in s.pending && s.pending[c].Replace? ==> s.pending[c].replaced != step.call.rotated
  }

  ghost predicate ApartRun(states: seq<State>, steps: seq<Step>) {
    IsRun(states, steps) && forall n :: 0 <= n < |steps| ==> Apart(states[n], steps[n])
  }

  /** While one rotation of a key is in flight, the end it will give lies within the life the key has now. */
  ghost predicate EndsAhead(s: State) {
    && (forall c :: c in s.pending && s.pending[c].Replace? ==>
          s.pending[c].replaced in s.d.keys && NotLater(Some(s.pending[c].end), s.d.keys[s.pending[c].replaced].expires))
    && (forall b, c :: b in s.pending && c in s.pending && b != c && s.pending[b].Replace? && s.pending[c].Replace? ==>
          s.pending[b].replaced != s.pending[c].replaced)
  }

  lemma SettlingKeepsEnds(s: State, c: nat)
    requires KeyInv(s) && EndsAhead(s) && c in s.pending
    ensures EndsAhead(Settled(s, c))
  {
    if Commit(s.d, s.pending[c]).Ok? {
      assert WriteOk(s, s.pending[c]);
      forall b | b in s.pending && b != c && s.pending[b].Replace?
        ensures s.pending[b].replaced in Settled(s, c).d.keys
                && NotLater(Some(s.pending[b].end), Settled(s, c).d.keys[s.pending[b].replaced].expires)
      {
        CommitKeys(s, s.pending[c], s.pending[b].replaced);
      }
    }
  }

  lemma EndsAheadStep(s: State, step: Step)
    requires KeyInv(s) && EndsAhead(s) && Enabled(s, step) && Apart(s, step)
    ensures EndsAhead(Apply(s, step))
  {
    match step
    case Tick(_) =>
    case Begin(c, call) =>
      if call.RotateKey? && Decide(s.d, call, s.now).Ok? {
        RotationInherits(s.d, call, s.now);
      }
    case Settle(c) => SettlingKeepsEnds(s, c);
  }

  lemma {:induction false} EndsAheadRun(states: seq<State>, steps: seq<Step>, n: nat)
    requires ApartRun(states, steps) && n < |states|
    ensures EndsAhead(states[n])
  {
    if n > 0 {
      EndsAheadRun(states, steps, n - 1);
      KeyRun(states, steps, n - 1);
      EndsAheadStep(states[n - 1], steps[n - 1]);
    }
  }

  predicate Weaker(after: Key, before: Key) {
    && NotLater(after.expires, before.expires) && (after.active ==> before.active)
    && (before.revokedAt.Some? ==> after.revokedAt.Some?) && after.secretHash == before.secretHash
  }

  lemma WeakerStep(s: State, step: Step, k: string)
    requires KeyInv(s) && EndsAhead(s) && Enabled(s, step) && k in s.d.keys
    ensures k in Apply(s, step).d.keys && Weaker(Apply(s, step).d.keys[k], s.d.keys[k])
    ensures s.now <= Apply(s, step).now
  {
    if step.Settle? && Commit(s.d, s.pending[step.caller]).Ok? {
      assert WriteOk(s, s.pending[step.caller]);
      CommitKeys(s, s.pending[step.caller], k);
    }
  }

  /** A key only ever loses: its expiry moves earlier and it is never revived. */
  lemma {:induction false} KeysOnlyLose(states: seq<State>, steps: seq<Step>, m: nat, n: nat, k: string)
    requires ApartRun(states, steps) && m <= n < |states| && k in states[m].d.keys
    ensures k in states[n].d.keys && Weaker(states[n].d.keys[k], states[m].d.keys[k]) && states[m].now <= states[n].now
  {
    if m < n {
      KeysOnlyLose(states, steps, m, n - 1, k);
      KeyRun(states, steps, n - 1);
      EndsAheadRun(states, steps, n - 1);
      WeakerStep(states[n - 1], steps[n - 1], k);
    }
  }

  // ---------- what can revive a dead key ----------

  /** The write gives a key that was not revoked an end that is still to come. */
  predicate GivesLife(d: Directory, write: Write, k: string, now: int) {
    && write.Replace? && write.replaced == k && k in d.keys
    && d.keys[k].active && d.keys[k].revokedAt.None? && now < write.end
  }

  /** A dead key is usable after a write if and only if the write gives it an end that is still to come. */
  lemma RevivesExactly(d: Directory, write: Write, k: string, now: int)
    requires k in d.keys && !Usable(d.keys[k], now) && Commit(d, write).Ok? && (Carries(write) ==> write.keyId != k)
    ensures k in Commit(d, write).value.keys
    ensures Usable(Commit(d, write).value.keys[k], now) <==> GivesLife(d, write, k, now)
  {
  }

  predicate UsableIn(s: State, k: string) {
    k in s.d.keys && Usable(s.d.keys[k], s.now)
  }

  predicate Revives(s: State, step: Step, k: string) {
    step.Settle? && step.caller in s.pending && GivesLife(s.d, s.pending[step.caller], k, s.now)
  }

  lemma StepRevives(s: State, step: Step, k: string)
    requires KeyInv(s) && Enabled(s, step) && k in s.d.keys && !UsableIn(s, k)
    ensures k in Apply(s, step).d.keys && (UsableIn(Apply(s, step), k) <==> Revives(s, step, k))
  {
    if step.Settle? {
      assert WriteOk(s, s.pending[step.caller]);
      if Commit(s.d, s.pending[step.caller]).Ok? {
        RevivesExactly(s.d, s.pending[step.caller], k, s.now);
      }
    }
  }

  lemma KeysStay(s: State, step: Step, k: string)
    requires Enabled(s, step) && k in s.d.keys
    ensures k in Apply(s, step).d.keys
  {
  }

  lemma {:induction false} KeysStayOn(states: seq<State>, steps: seq<Step>, m: nat, n: nat, k: string)
    requires IsRun(states, steps) && m <= n < |states| && k in states[m].d.keys
    ensures k in states[n].d.keys
  {
    if m < n {
      KeysStayOn(states, steps, m, n - 1, k);
      KeysStay(states[n - 1], steps[n - 1], k);
    }
  }

  ghost predicate RevivesAt(states: seq<State>, steps: seq<Step>, j: nat, k: string) {
    j < |steps| && j < |states| && !UsableIn(states[j], k) && Revives(states[j], steps[j], k)
  }

  lemma {:induction false} RevivedOnTheWay(states: seq<State>, steps: seq<Step>, m: nat, n: nat, k: string) returns (j: nat)
    requires IsRun(states, steps) && m <= n < |states| && k in states[m].d.keys && !UsableIn(states[m], k) && UsableIn(states[n], k)
    ensures m <= j < n && RevivesAt(states, steps, j, k)
  {
    j := n - 1;
    if UsableIn(states[j], k) {
      j := RevivedOnTheWay(states, steps, m, j, k);
    } else {
      KeysStayOn(states, steps, m, j, k);
      KeyRun(states, steps, j);
      StepRevives(states[j], steps[j], k);
    }
  }

  /** In every run, a dead key is usable again at some time if and only if a rotation settles that gives it life while it is dead. */
  lemma DeadKeysReviveExactly(states: seq<State>, steps: seq<Step>, m: nat, k: string)
    requires IsRun(states, steps) && m < |states| && k in states[m].d.keys && !UsableIn(states[m], k)
    ensures (exists n: nat :: m <= n < |states| && UsableIn(states[n], k))
            <==> (exists j: nat :: m <= j && RevivesAt(states, steps, j, k))
  {
    if n: nat :| m <= n < |states| && UsableIn(states[n], k) {
      var j := RevivedOnTheWay(states, steps, m, n, k);
    }
    if j: nat :| m <= j && RevivesAt(states, steps, j, k) {
      KeysStayOn(states, steps, m, j, k);
      KeyRun(states, steps, j);
      StepRevives(states[j], steps[j], k);
      assert UsableIn(states[j + 1], k);
    }
  }

  lemma SecretOfADeadKey(states: seq<State>, steps: seq<Step>, n: nat, k: string, operator: string)
    requires IsRun(states, steps) && n < |states| && k in states[n].d.keys && !UsableIn(states[n], k)
    ensures !Authenticates(states[n].d, states[n].d.keys[k].secretHash, states[n].now, operator)
  {
    SecretsAreUnique(states, steps, n);
  }

  /** When no two rotations of one key are in flight together, none gives life to a dead key. */
  lemma ApartNeverRevives(s: State, step: Step, k: string)
    requires EndsAhead(s) && k in s.d.keys && !UsableIn(s, k)
    ensures !Revives(s, step, k)
  {
  }

  /** Then a secret whose key was revoked or has expired never authenticates again. */
  lemma DeadForEver(states: seq<State>, steps: seq<Step>, m: nat, n: nat, k: string, operator: string)
    requires ApartRun(states, steps) && m <= n < |states| && k in states[m].d.keys && !UsableIn(states[m], k)
    ensures !Authenticates(states[n].d, states[m].d.keys[k].secretHash, states[n].now, operator)
  {
    if UsableIn(states[n], k) {
      var j := RevivedOnTheWay(states, steps, m, n, k);
      KeysStayOn(states, steps, m, j, k);
      EndsAheadRun(states, steps, j);
      ApartNeverRevives(states[j], steps[j], k);
    }
    KeysOnlyLose(states, steps, m, n, k);
    SecretOfADeadKey(states, steps, n, k, operator);
  }

  /** Two rotations of one key that cross can revive it: the later write carries an end computed before the cutover. */
  lemma CrossingRotationsRevive(d: Directory, first: Call, second: Call, now: int)
    requires first.RotateKey? && second.RotateKey? && first.rotated == second.rotated && first.keyId != second.keyId
    requires first.rotated in d.keys && d.keys[first.rotated].expires.None?
    requires first.keyId !in d.keys && second.keyId !in d.keys
    requires first.overlap == Some(0) && second.overlap.Some? && second.overlap.value > 0
    requires Decide(d, first, now).Ok? && Decide(d, second, now).Ok?
    ensures var k := first.rotated;
            var cut := Commit(d, Decide(d, first, now).value);
            && cut.Ok? && k in cut.value.keys && !Usable(cut.value.keys[k], now)
            && var revived := Commit(cut.value, Decide(d, second, now).value);
            && revived.Ok? && k in revived.value.keys && Usable(revived.value.keys[k], now)
  {
    RotationInherits(d, first, now);
    RotationInherits(d, second, now);
  }

  // ---------- calls that do not interleave ----------

  ghost predicate Serial(states: seq<State>, steps: seq<Step>) {
    IsRun(states, steps) && forall n :: 0 <= n < |steps| && steps[n].Begin? ==> states[n].pending == map[]
  }

  lemma {:induction false} OneInFlight(states: seq<State>, steps: seq<Step>, n: nat)
    requires Serial(states, steps) && n < |states|
    ensures forall b, c :: b in states[n].pending && c in states[n].pending ==> b == c
  {
    if n > 0 {
      OneInFlight(states, steps, n - 1);
      match steps[n - 1]
      case Tick(_) =>
      case Begin(c, call) =>
        assert states[n] == Begun(states[n - 1], c, call);
        assert forall b :: b in states[n].pending ==> b == c;
      case Settle(c) =>
        assert states[n] == Settled(states[n - 1], c);
        assert forall b :: b in states[n].pending ==> b in states[n - 1].pending;
    }
  }

  /** Calls made one after another meet both conditions, so that both guarantees hold of them. */
  lemma SerialRunsAreCalm(states: seq<State>, steps: seq<Step>)
    requires Serial(states, steps)
    ensures CalmRun(states, steps) && ApartRun(states, steps)
  {
    forall n | 0 <= n < |steps| ensures Calm(states[n], steps[n]) && Apart(states[n], steps[n]) {
      OneInFlight(states, steps, n);
    }
  }

  /** A call that nothing interrupts is one read and one write of the directory. */
  lemma ServedInTwoSteps(s: State, c: nat, call: Call)
    requires s.pending == map[] && Enabled(s, Begin(c, call))
    ensures var begun := Begun(s, c, call);
            var done := if c in begun.pending then Settled(begun, c) else begun;
            done.d == Served(s.d, call, s.now).0 && done.pending == map[]
  {
  }

  predicate Known(d: Directory, actor: Principal) {
    actor.operator.Some? ==> actor.operator.value.0 in d.operators
  }

  /** What the service object does with a call keeps an active platform admin, and knows its operators for ever. */
  lemma ServedKeepsAdmins(d: Directory, call: Call, now: int)
    requires HasAdmin(d) && Known(d, call.actor)
    ensures HasAdmin(Served(d, call, now).0) && d.operators.Keys <= Served(d, call, now).0.operators.Keys
  {
    var s := State(d, map[], map[], now);
    ServedInTwoSteps(s, 0, call);
    AdminStep(s, Begin(0, call));
    var begun := Begun(s, 0, call);
    if 0 in begun.pending {
      AdminStep(begun, Settle(0));
    }
  }

  /** Calls on the object one after another: each made by an operator that was there before, or by a bootstrap credential. */
  lemma {:induction false} ObjectIsNeverStranded(ds: seq<Directory>, calls: seq<Call>, clock: seq<int>, n: nat)
    requires |ds| == |calls| + 1 == |clock| + 1 && ds[0] == Directory(map[], map[]) && n < |ds|
    requires forall k :: 0 <= k < |calls| ==> Known(ds[k], calls[k].actor) && ds[k + 1] == Served(ds[k], calls[k], clock[k]).0
    ensures HasAdmin(ds[n])
  {
    if n > 0 {
      ObjectIsNeverStranded(ds, calls, clock, n - 1);
      ServedKeepsAdmins(ds[n - 1], calls[n - 1], clock[n - 1]);
    }
  }

  /** Every directory a run reaches has one key for a secret, so that looking one up by its hash is unambiguous. */
  lemma SecretsAreUnique(states: seq<State>, steps: seq<Step>, n: nat)
    requires IsRun(states, steps) && n < |states|
    ensures UniqueHashes(states[n].d)
  {
    KeyRun(states, steps, n);
    var keys := states[n].d.keys;
    forall k, l | k in keys && l in keys && k != l ensures keys[k].secretHash != keys[l].secretHash {
      assert Minted(states[n], k, keys[k]) && Minted(states[n], l, keys[l]);
    }
  }
}
