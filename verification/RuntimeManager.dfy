/**
 The single-flight runtime manager.  A start is a promise that settles later; requests,
 settlements, suspensions and shutdown interleave freely.  A suspension or a shutdown takes
 promises out of the cache and owns them until it has closed their runtimes.
 */
module RuntimeManager {
  import opened Prelude

  datatype Status = Pending | Fulfilled | Rejected

  /** The runtime a promise yields is named by the index of the promise. */
  datatype Start = Start(environment: string, status: Status)

  /**
   `closers` are the promises each suspend or close call still has to wait for and close, in
   order.  `shut`, `abandoned` and `removed` are history: runtimes whose close was called,
   promises a failing close call dropped, and the environments taken out of the cache.
   */
  datatype Manager = Manager(
    promises: seq<Start>,
    runtimes: map<string, nat>,
    started: map<string, nat>,
    closed: bool,
    closers: seq<seq<nat>>,
    shut: set<nat>,
    abandoned: set<nat>,
    removed: multiset<string>)

  datatype Step =
    | Request(environment: string)
    | StartSucceeds(promise: nat)
    | StartFails(promise: nat)
    | Suspend(environment: string)
    | Close(order: seq<nat>)
    | SkipRejected(closer: nat)
    | CloseRuntime(closer: nat)
    | CloseRuntimeThrows(closer: nat)

  predicate Distinct(s: seq<nat>) {
    forall i, j :: 0 <= i < j < |s| ==> s[i] != s[j]
  }

  predicate Cached(m: Manager, p: nat) {
    p < |m.promises| && m.promises[p].environment in m.runtimes && m.runtimes[m.promises[p].environment] == p
  }

  predicate Heads(m: Manager, c: nat, status: Status) {
    c < |m.closers| && m.closers[c] != [] && m.closers[c][0] < |m.promises| && m.promises[m.closers[c][0]].status == status
  }

  ghost predicate Enabled(m: Manager, step: Step) {
    match step
    case Request(_) => true
    case StartSucceeds(p) => p < |m.promises| && m.promises[p].status.Pending?
    case StartFails(p) => p < |m.promises| && m.promises[p].status.Pending?
    case Suspend(_) => true
    case Close(order) => Distinct(order) && (set p | p in order) == m.runtimes.Values
    case SkipRejected(c) => Heads(m, c, Rejected)
    case CloseRuntime(c) => Heads(m, c, Fulfilled)
    case CloseRuntimeThrows(c) => Heads(m, c, Fulfilled)
  }

  function Settle(m: Manager, p: nat, status: Status): Manager
    requires p < |m.promises|
  {
    m.(promises := m.promises[p := m.promises[p].(status := status)])
  }

  function ShutDown(m: Manager, order: seq<nat>): Manager {
    m.(closed := true, runtimes := map[], started := map[], closers := m.closers + [order],
       removed := m.removed + multiset(m.runtimes.Keys))
  }

  ghost function Apply(m: Manager, step: Step): Manager
    requires Enabled(m, step)
  {
    match step
    case Request(e) =>
      if m.closed || e in m.runtimes then m
      else m.(promises := m.promises + [Start(e, Pending)], runtimes := m.runtimes[e := |m.promises|])
    case StartSucceeds(p) =>
      var settled := Settle(m, p, Fulfilled);
      if Cached(m, p) then settled.(started := m.started[m.promises[p].environment := p]) else settled
    case StartFails(p) =>
      var settled := Settle(m, p, Rejected);
      var e := m.promises[p].environment;
      // A failed start is evicted, not cached.
      if Cached(m, p) then settled.(runtimes := m.runtimes - {e}, removed := m.removed + multiset{e}) else settled
    case Suspend(e) =>
      if e !in m.runtimes then m
      else m.(runtimes := m.runtimes - {e}, started := m.started - {e}, closers := m.closers + [[m.runtimes[e]]],
              removed := m.removed + multiset{e})
    case Close(order) => ShutDown(m, order)
    case SkipRejected(c) => m.(closers := m.closers[c := m.closers[c][1..]])
    case CloseRuntime(c) => m.(closers := m.closers[c := m.closers[c][1..]], shut := m.shut + {m.closers[c][0]})
    case CloseRuntimeThrows(c) =>
      m.(closers := m.closers[c := []], shut := m.shut + {m.closers[c][0]},
         abandoned := m.abandoned + (set p | p in m.closers[c][1..]))
  }

  ghost predicate IsRun(states: seq<Manager>, steps: seq<Step>) {
    && |states| == |steps| + 1
    && forall n :: 0 <= n < |steps| ==> Enabled(states[n], steps[n]) && states[n + 1] == Apply(states[n], steps[n])
  }

  ghost predicate Initial(m: Manager) {
    m == Manager([], map[], map[], false, [], {}, {}, multiset{})
  }

  // ---------- the cache ----------

  /**
   The cache holds live starts of its own environment, never a rejected one; `started` mirrors
   exactly the cached starts that have succeeded; after shutdown both are empty.
   */
  ghost predicate CacheOk(m: Manager) {
    (forall e :: EntryOk(m, e)) && (m.closed ==> m.runtimes == map[])
  }

  predicate EntryOk(m: Manager, e: string) {
    && (e in m.runtimes ==> m.runtimes[e] < |m.promises| && m.promises[m.runtimes[e]].environment == e
                            && !m.promises[m.runtimes[e]].status.Rejected?)
    && (e in m.started <==> e in m.runtimes && m.promises[m.runtimes[e]].status.Fulfilled?)
    && (e in m.started ==> m.started[e] == m.runtimes[e])
  }

  lemma CacheStep(m: Manager, step: Step)
    requires CacheOk(m) && Enabled(m, step)
    ensures CacheOk(Apply(m, step))
  {
    forall e ensures EntryOk(Apply(m, step), e) {
      assert EntryOk(m, e);
    }
  }

  // ---------- how often an environment is started ----------

  function StartsOf(promises: seq<Start>, e: string): nat {
    if promises == [] then 0
    else StartsOf(promises[..|promises| - 1], e) + (if promises[|promises| - 1].environment == e then 1 else 0)
  }

  /** Every start beyond the cached one was removed from the cache. */
  ghost predicate StartsOk(m: Manager) {
    forall e :: StartsOf(m.promises, e) == m.removed[e] + (if e in m.runtimes then 1 else 0)
  }

  lemma {:induction false} SettlingIsNoStart(promises: seq<Start>, p: nat, status: Status, e: string)
    requires p < |promises|
    ensures StartsOf(promises[p := promises[p].(status := status)], e) == StartsOf(promises, e)
  {
    var last := |promises| - 1;
    var settled := promises[p := promises[p].(status := status)];
    if p < last {
      SettlingIsNoStart(promises[..last], p, status, e);
      assert settled[..last] == promises[..last][p := promises[p].(status := status)];
    } else {
      assert settled[..last] == promises[..last];
    }
  }

  lemma StartsStep(m: Manager, step: Step)
    requires CacheOk(m) && StartsOk(m) && Enabled(m, step)
    ensures StartsOk(Apply(m, step))
  {
    var after := Apply(m, step);
    forall e ensures StartsOf(after.promises, e) == after.removed[e] + (if e in after.runtimes then 1 else 0) {
      assert StartsOf(m.promises, e) == m.removed[e] + (if e in m.runtimes then 1 else 0);
      StepStarts(m, step, e);
    }
  }

  lemma StepStarts(m: Manager, step: Step, e: string)
    requires Enabled(m, step)
    ensures StartsOf(Apply(m, step).promises, e)
            == StartsOf(m.promises, e) + if step == Request(e) && !m.closed && e !in m.runtimes then 1 else 0
  {
    match step
    case Request(f) => assert (m.promises + [Start(f, Pending)])[..|m.promises|] == m.promises;
    case StartSucceeds(p) => SettlingIsNoStart(m.promises, p, Fulfilled, e);
    case StartFails(p) => SettlingIsNoStart(m.promises, p, Rejected, e);
    case _ => assert Apply(m, step).promises == m.promises;
  }

  // ---------- who closes a runtime ----------

  predicate QueuedAt(closers: seq<seq<nat>>, c: nat, i: nat, p: nat) {
    c < |closers| && i < |closers[c]| && closers[c][i] == p
  }

  ghost predicate Queued(m: Manager, p: nat) {
    exists c: nat, i: nat :: QueuedAt(m.closers, c, i, p)
  }

  /** A start that is not rejected is cached, or a suspend or close call has closed it, will close it, or dropped it. */
  ghost predicate Covered(m: Manager, p: nat) {
    p < |m.promises| && !m.promises[p].status.Rejected? ==> Cached(m, p) || Queued(m, p) || p in m.shut || p in m.abandoned
  }

  ghost predicate AllCovered(m: Manager) {
    forall p: nat :: Covered(m, p)
  }

  /** No runtime is closed twice, and none is closed or waits to be closed while it is cached. */
  ghost predicate OwnedOnce(m: Manager) {
    && (forall c: nat, i: nat, d: nat, j: nat, p: nat :: QueuedAt(m.closers, c, i, p) && QueuedAt(m.closers, d, j, p) ==> c == d && i == j)
    && (forall c: nat, i: nat, p: nat :: QueuedAt(m.closers, c, i, p) ==> p < |m.promises| && !Cached(m, p) && p !in m.shut)
    && (forall p :: p in m.shut ==> p < |m.promises| && !Cached(m, p))
  }

  /** A suspend or close call takes cached promises over. */
  lemma QueueGrows(m: Manager, after: Manager, queue: seq<nat>)
    requires OwnedOnce(m) && Distinct(queue) && forall p :: p in queue ==> Cached(m, p) && !Cached(after, p)
    requires after.closers == m.closers + [queue] && after.promises == m.promises && after.shut == m.shut
    requires forall p :: Cached(after, p) ==> Cached(m, p)
    ensures OwnedOnce(after)
  {
    assert forall c: nat, i: nat, p: nat :: QueuedAt(after.closers, c, i, p) ==>
        QueuedAt(m.closers, c, i, p) || (c == |m.closers| && i < |queue| && queue[i] == p && p in queue);
  }

  /** Requests and starts that settle take nothing from a call that will close it. */
  lemma StartingKeepsOwners(m: Manager, step: Step)
    requires CacheOk(m) && OwnedOnce(m) && Enabled(m, step) && (step.Request? || step.StartSucceeds? || step.StartFails?)
    ensures OwnedOnce(Apply(m, step))
  {
    var after := Apply(m, step);
    assert after.closers == m.closers && after.shut == m.shut;
    assert forall p: nat :: p < |m.promises| && Cached(after, p) ==> Cached(m, p);
  }

  lemma TakingKeepsOwners(m: Manager, step: Step)
    requires CacheOk(m) && OwnedOnce(m) && Enabled(m, step) && (step.Suspend? || step.Close?)
    ensures OwnedOnce(Apply(m, step))
  {
    var after := Apply(m, step);
    if step.Close? {
      forall p | p in step.order ensures Cached(m, p) {
        assert p in m.runtimes.Values;
        var e :| e in m.runtimes && m.runtimes[e] == p;
        assert EntryOk(m, e);
      }
      QueueGrows(m, after, step.order);
    } else if step.environment in m.runtimes {
      assert EntryOk(m, step.environment);
      QueueGrows(m, after, [m.runtimes[step.environment]]);
    }
  }

  lemma ThrowingKeepsOwners(m: Manager, step: Step)
    requires OwnedOnce(m) && Enabled(m, step) && step.CloseRuntimeThrows?
    ensures OwnedOnce(Apply(m, step))
  {
    var (after, c) := (Apply(m, step), step.closer);
    assert QueuedAt(m.closers, c, 0, m.closers[c][0]);
    assert forall d: nat, i: nat, p: nat :: QueuedAt(after.closers, d, i, p) ==> d != c && QueuedAt(m.closers, d, i, p);
  }

  lemma OwnedStep(m: Manager, step: Step)
    requires CacheOk(m) && OwnedOnce(m) && Enabled(m, step)
    ensures OwnedOnce(Apply(m, step))
  {
    if step.Suspend? || step.Close? {
      TakingKeepsOwners(m, step);
    } else if step.SkipRejected? || step.CloseRuntime? {
      QueueAdvances(m, Apply(m, step), step.closer);
    } else if step.CloseRuntimeThrows? {
      ThrowingKeepsOwners(m, step);
    } else {
      StartingKeepsOwners(m, step);
    }
  }

  lemma QueueAdvances(m: Manager, after: Manager, c: nat)
    requires OwnedOnce(m) && c < |m.closers| && m.closers[c] != []
    requires after.closers == m.closers[c := m.closers[c][1..]]
    requires after.promises == m.promises && after.runtimes == m.runtimes
    requires after.shut == m.shut || after.shut == m.shut + {m.closers[c][0]}
    ensures OwnedOnce(after)
  {
    var head := m.closers[c][0];
    assert QueuedAt(m.closers, c, 0, head);
    forall d: nat, i: nat, p: nat | QueuedAt(after.closers, d, i, p)
      ensures QueuedAt(m.closers, d, if d == c then i + 1 else i, p) && p != head
    {
      assert QueuedAt(m.closers, d, if d == c then i + 1 else i, p);
    }
  }

  lemma CoveredStep(m: Manager, step: Step)
    requires CacheOk(m) && AllCovered(m) && Enabled(m, step)
    ensures AllCovered(Apply(m, step))
  {
    var after := Apply(m, step);
    forall p: nat ensures Covered(after, p) {
      assert Covered(m, p);
      if p < |m.promises| && !after.promises[p].status.Rejected? {
        if Queued(m, p) {
          QueuedStep(m, step, p);
        } else if Cached(m, p) {
          CachedStep(m, step, p);
        }
      }
    }
  }

  lemma QueuedStep(m: Manager, step: Step, p: nat)
    requires Enabled(m, step) && Queued(m, p) && p < |m.promises| && !m.promises[p].status.Rejected?
    ensures Queued(Apply(m, step), p) || p in Apply(m, step).shut || p in Apply(m, step).abandoned
  {
    var after := Apply(m, step);
    var c: nat, i: nat :| QueuedAt(m.closers, c, i, p);
    if (step.SkipRejected? || step.CloseRuntime? || step.CloseRuntimeThrows?) && step.closer == c {
      if i > 0 {
        assert m.closers[c][1..][i - 1] == p;
        assert step.CloseRuntimeThrows? || QueuedAt(after.closers, c, i - 1, p);
      }
    } else {
      assert QueuedAt(after.closers, c, i, p);
    }
  }

  lemma CachedStep(m: Manager, step: Step, p: nat)
    requires CacheOk(m) && Enabled(m, step) && Cached(m, p)
    requires !Apply(m, step).promises[p].status.Rejected?
    ensures Cached(Apply(m, step), p) || Queued(Apply(m, step), p)
  {
    var after := Apply(m, step);
    match step
    case Suspend(e) =>
      if e == m.promises[p].environment {
        assert QueuedAt(after.closers, |m.closers|, 0, p);
      }
    case Close(order) =>
      assert p in m.runtimes.Values;
      var i: nat :| i < |order| && order[i] == p;
      assert QueuedAt(after.closers, |m.closers|, i, p);
    case _ =>
  }

  // ---------- what a failing close drops ----------

  /** Somebody still has the promise: the cache, a call that will close it, or one that did. */
  ghost predicate InHand(m: Manager, p: nat) {
    Cached(m, p) || Queued(m, p) || p in m.shut
  }

  ghost predicate DroppedForGood(m: Manager) {
    forall p :: p in m.abandoned ==> p < |m.promises| && !InHand(m, p)
  }

  /** A close throws while this promise waits behind it. */
  predicate Drops(m: Manager, step: Step, p: nat) {
    step.CloseRuntimeThrows? && step.closer < |m.closers| && m.closers[step.closer] != [] && p in m.closers[step.closer][1..]
  }

  /** What waits to be closed waited before, or is taken from the cache by this step. */
  lemma QueuedBefore(m: Manager, step: Step, p: nat)
    requires CacheOk(m) && Enabled(m, step) && p < |m.promises| && Queued(Apply(m, step), p)
    ensures Queued(m, p) || Cached(m, p)
  {
    var after := Apply(m, step);
    var c: nat, i: nat :| QueuedAt(after.closers, c, i, p);
    if c == |m.closers| {
      assert p in m.runtimes.Values by {
        assert step.Close? ==> p in step.order;
      }
      var e :| e in m.runtimes && m.runtimes[e] == p;
      assert EntryOk(m, e);
    } else if (step.SkipRejected? || step.CloseRuntime?) && step.closer == c {
      assert QueuedAt(m.closers, c, i + 1, p);
    } else {
      assert QueuedAt(m.closers, c, i, p);
    }
  }

  /** No step takes a promise back that nobody has. */
  lemma NeverTakenBack(m: Manager, step: Step, p: nat)
    requires CacheOk(m) && Enabled(m, step) && p < |m.promises| && !InHand(m, p)
    ensures !InHand(Apply(m, step), p)
  {
    if Queued(Apply(m, step), p) {
      QueuedBefore(m, step, p);
    }
    assert step.CloseRuntime? || step.CloseRuntimeThrows? ==> QueuedAt(m.closers, step.closer, 0, m.closers[step.closer][0]);
  }

  lemma BehindIsInNoHand(m: Manager, step: Step, p: nat)
    requires OwnedOnce(m) && Enabled(m, step) && Drops(m, step, p)
    ensures p < |m.promises| && !InHand(Apply(m, step), p)
  {
    var (after, c) := (Apply(m, step), step.closer);
    var i: nat :| i < |m.closers[c]| - 1 && m.closers[c][1..][i] == p;
    assert QueuedAt(m.closers, c, i + 1, p) && QueuedAt(m.closers, c, 0, m.closers[c][0]);
    if d: nat, j: nat :| QueuedAt(after.closers, d, j, p) {
      assert QueuedAt(m.closers, d, j, p);
    }
  }

  lemma DroppedStep(m: Manager, step: Step)
    requires CacheOk(m) && OwnedOnce(m) && DroppedForGood(m) && Enabled(m, step)
    ensures DroppedForGood(Apply(m, step))
  {
    forall p | p in Apply(m, step).abandoned ensures p < |Apply(m, step).promises| && !InHand(Apply(m, step), p) {
      if p in m.abandoned {
        NeverTakenBack(m, step, p);
      } else {
        BehindIsInNoHand(m, step, p);
      }
    }
  }

  // ---------- guarantees over whole runs ----------

  ghost predicate Inv(m: Manager) {
    CacheOk(m) && StartsOk(m) && OwnedOnce(m) && AllCovered(m) && DroppedForGood(m)
  }

  lemma {:induction false} RunKeepsInv(states: seq<Manager>, steps: seq<Step>, n: nat)
    requires IsRun(states, steps) && Initial(states[0]) && n < |states|
    ensures Inv(states[n])
  {
    if n > 0 {
      RunKeepsInv(states, steps, n - 1);
      CacheStep(states[n - 1], steps[n - 1]);
      StartsStep(states[n - 1], steps[n - 1]);
      OwnedStep(states[n - 1], steps[n - 1]);
      CoveredStep(states[n - 1], steps[n - 1]);
      DroppedStep(states[n - 1], steps[n - 1]);
    }
  }

  /** Starts of an environment never exceed one more than the times it left the cache. */
  lemma StartsAreBoundedByRemovals(states: seq<Manager>, steps: seq<Step>, n: nat, e: string)
    requires IsRun(states, steps) && Initial(states[0]) && n < |states|
    ensures states[n].removed[e] <= StartsOf(states[n].promises, e) <= 1 + states[n].removed[e]
    ensures StartsOf(states[n].promises, e) == 1 + states[n].removed[e] <==> e in states[n].runtimes
  {
    RunKeepsInv(states, steps, n);
  }

  /** The step calls the close of this runtime. */
  predicate Closes(m: Manager, step: Step, p: nat) {
    && (step.CloseRuntime? || step.CloseRuntimeThrows?)
    && step.closer < |m.closers| && m.closers[step.closer] != [] && m.closers[step.closer][0] == p
  }

  lemma ShutOrDroppedStep(m: Manager, step: Step, p: nat)
    requires Enabled(m, step)
    ensures p in Apply(m, step).shut <==> p in m.shut || Closes(m, step, p)
    ensures p in Apply(m, step).abandoned <==> p in m.abandoned || Drops(m, step, p)
  {
  }

  lemma {:induction false} AbandonedExactly(states: seq<Manager>, steps: seq<Step>, n: nat, p: nat)
    requires IsRun(states, steps) && Initial(states[0]) && n < |states|
    ensures p in states[n].abandoned <==> exists k: nat :: k < n && Drops(states[k], steps[k], p)
  {
    if n > 0 {
      AbandonedExactly(states, steps, n - 1, p);
      ShutOrDroppedStep(states[n - 1], steps[n - 1], p);
    }
  }

  /**
   A runtime that started is lost, neither cached nor closed nor waiting to be closed, exactly
   when it stood behind one whose close threw in the same suspend or close call.
   */
  lemma LostExactly(states: seq<Manager>, steps: seq<Step>, n: nat, p: nat)
    requires IsRun(states, steps) && Initial(states[0]) && n < |states|
    requires p < |states[n].promises| && states[n].promises[p].status.Fulfilled?
    ensures !InHand(states[n], p) <==> exists k: nat :: k < n && Drops(states[k], steps[k], p)
  {
    RunKeepsInv(states, steps, n);
    AbandonedExactly(states, steps, n, p);
    assert Covered(states[n], p);
  }

  /** What was lost, or would have started only later, stays lost. */
  lemma LostForEver(states: seq<Manager>, steps: seq<Step>, k: nat, n: nat, p: nat)
    requires IsRun(states, steps) && Initial(states[0]) && k < n < |states| && Drops(states[k], steps[k], p)
    ensures p < |states[n].promises| && !InHand(states[n], p)
  {
    RunKeepsInv(states, steps, n);
    AbandonedExactly(states, steps, n, p);
  }

  /** Every other runtime that started is cached or in the hands of the one call that closes it. */
  lemma NoOtherRuntimeIsLost(states: seq<Manager>, steps: seq<Step>, n: nat, p: nat)
    requires IsRun(states, steps) && Initial(states[0]) && n < |states|
    requires forall k: nat :: k < n ==> !Drops(states[k], steps[k], p)
    requires p < |states[n].promises| && states[n].promises[p].status.Fulfilled?
    ensures Cached(states[n], p) || Queued(states[n], p) || p in states[n].shut
    ensures (if Cached(states[n], p) then 1 else 0) + (if Queued(states[n], p) then 1 else 0)
            + (if p in states[n].shut then 1 else 0) == 1
  {
    LostExactly(states, steps, n, p);
    RunKeepsInv(states, steps, n);
    if c: nat, i: nat :| QueuedAt(states[n].closers, c, i, p) {
      assert p < |states[n].promises| && !Cached(states[n], p) && p !in states[n].shut;
    }
  }

  // ---------- what a request, a suspension and a turn of a closing call do ----------

  /** A request while the manager is open is answered with the cached start, or with a new one that is then cached. */
  lemma RequestsShareOneStart(m: Manager, e: string)
    requires CacheOk(m)
    ensures var after := Apply(m, Request(e));
            if m.closed || e in m.runtimes then after == m
            else
              && after.promises == m.promises + [Start(e, Pending)]
              && after.runtimes.Keys == m.runtimes.Keys + {e} && after.runtimes[e] == |m.promises|
              && (forall f :: f in m.runtimes ==> after.runtimes[f] == m.runtimes[f])
              && after.started == m.started && after.closers == m.closers && after.shut == m.shut
  {
  }

  /** A suspension takes one environment out of the cache and lets a call of its own close the runtime. */
  lemma SuspensionTakesOneOut(m: Manager, e: string)
    requires CacheOk(m)
    ensures var after := Apply(m, Step.Suspend(e));
            && e !in after.runtimes && e !in after.started && after.promises == m.promises && after.shut == m.shut
            && (forall f :: f != e ==> (f in after.runtimes <==> f in m.runtimes) && (f in after.started <==> f in m.started))
            && (forall f :: f != e && f in m.runtimes ==> after.runtimes[f] == m.runtimes[f])
            && (forall f :: f != e && f in m.started ==> after.started[f] == m.started[f])
            && (if e in m.runtimes then Queued(after, m.runtimes[e]) && |after.closers| == |m.closers| + 1 else after.closers == m.closers)
            && (forall c :: 0 <= c < |m.closers| ==> after.closers[c] == m.closers[c])
  {
    assert EntryOk(m, e);
    if e in m.runtimes {
      assert QueuedAt(Apply(m, Step.Suspend(e)).closers, |m.closers|, 0, m.runtimes[e]);
    }
  }

  /** The step takes the start out of the cache: its environment is suspended, everything is closed, or it failed. */
  predicate TakesOut(m: Manager, step: Step, p: nat)
    requires p < |m.promises|
  {
    step == Step.Suspend(m.promises[p].environment) || step.Close? || step == StartFails(p)
  }

  ghost predicate CacheMoved(m: Manager, step: Step, p: nat, after: Manager)
    requires p < |m.promises|
  {
    && p < |after.promises| && after.promises[p].environment == m.promises[p].environment
    && (Cached(after, p) <==> Cached(m, p) && !TakesOut(m, step, p))
  }

  lemma CacheMoves(m: Manager, step: Step, p: nat)
    requires CacheOk(m) && Enabled(m, step) && p < |m.promises|
    ensures CacheMoved(m, step, p, Apply(m, step))
  {
    assert EntryOk(m, m.promises[p].environment);
  }

  lemma {:induction false} CacheMovedThroughout(states: seq<Manager>, steps: seq<Step>, k: nat, n: nat, p: nat)
    requires |states| == |steps| + 1 && k <= n < |states| && Cached(states[k], p)
    requires forall j :: k <= j < n && p < |states[j].promises| ==> CacheMoved(states[j], steps[j], p, states[j + 1])
    ensures p < |states[n].promises| && states[n].promises[p].environment == states[k].promises[p].environment
    ensures Cached(states[n], p) <==> forall j :: k <= j < n ==> !TakesOut(states[k], steps[j], p)
  {
    if k < n {
      CacheMovedThroughout(states, steps, k, n - 1, p);
    }
  }

  /** In every run, a cached start stays the one its environment is answered with until one of these steps takes it out. */
  lemma CachedUntilTakenOut(states: seq<Manager>, steps: seq<Step>, k: nat, n: nat, p: nat)
    requires IsRun(states, steps) && Initial(states[0]) && k <= n < |states| && Cached(states[k], p)
    ensures p < |states[n].promises| && states[n].promises[p].environment == states[k].promises[p].environment
    ensures Cached(states[n], p) <==> forall j :: k <= j < n ==> !TakesOut(states[k], steps[j], p)
  {
    forall j | k <= j < n && p < |states[j].promises| ensures CacheMoved(states[j], steps[j], p, states[j + 1]) {
      RunKeepsInv(states, steps, j);
      CacheMoves(states[j], steps[j], p);
    }
    CacheMovedThroughout(states, steps, k, n, p);
  }

  /** What a suspension took out waits alone for its call to close it, or was closed, or never started: nothing can make it lost. */
  ghost predicate ClosedAlone(m: Manager, c: nat, p: nat) {
    && c < |m.closers| && p < |m.promises|
    && (m.closers[c] == [p] || (m.closers[c] == [] && (p in m.shut || m.promises[p].status.Rejected?)))
  }

  lemma ClosedAloneStep(m: Manager, step: Step, c: nat, p: nat)
    requires Enabled(m, step) && ClosedAlone(m, c, p)
    ensures ClosedAlone(Apply(m, step), c, p)
  {
  }

  lemma {:induction false} ClosedAloneThroughout(states: seq<Manager>, from: nat, n: nat, c: nat, p: nat)
    requires from <= n < |states| && ClosedAlone(states[from], c, p)
    requires forall k :: from <= k < n && ClosedAlone(states[k], c, p) ==> ClosedAlone(states[k + 1], c, p)
    ensures ClosedAlone(states[n], c, p)
  {
    if from < n {
      ClosedAloneThroughout(states, from, n - 1, c, p);
    }
  }

  /**
   In every run, an environment that is suspended is never answered with the same runtime again, and
   that runtime, if it starts, waits for the suspension to close it or has been closed; it is never lost.
   */
  lemma SuspendedRuntimesAreClosed(states: seq<Manager>, steps: seq<Step>, k: nat, n: nat, e: string)
    requires IsRun(states, steps) && Initial(states[0]) && k < n < |states|
    requires steps[k] == Step.Suspend(e) && e in states[k].runtimes
    ensures var p := states[k].runtimes[e];
            && p < |states[n].promises| && !Cached(states[n], p)
            && (states[n].promises[p].status.Fulfilled? ==> Queued(states[n], p) || p in states[n].shut)
  {
    var (p, c) := (states[k].runtimes[e], |states[k].closers|);
    RunKeepsInv(states, steps, k);
    assert EntryOk(states[k], e);
    CachedUntilTakenOut(states, steps, k, n, p);
    assert ClosedAlone(states[k + 1], c, p);
    forall j | k + 1 <= j < n && ClosedAlone(states[j], c, p) ensures ClosedAlone(states[j + 1], c, p) {
      ClosedAloneStep(states[j], steps[j], c, p);
    }
    ClosedAloneThroughout(states, k + 1, n, c, p);
    assert states[n].closers[c] == [p] ==> QueuedAt(states[n].closers, c, 0, p);
  }

  /** A turn of a closing call takes the promise at the head of its queue, or all of them when the close throws, and touches nothing else. */
  lemma TurnsTakeTheHead(m: Manager, step: Step)
    requires Enabled(m, step) && (step.SkipRejected? || step.CloseRuntime? || step.CloseRuntimeThrows?)
    ensures var (after, c) := (Apply(m, step), step.closer);
            && |after.closers| == |m.closers| && (forall d :: 0 <= d < |m.closers| && d != c ==> after.closers[d] == m.closers[d])
            && after.closers[c] == (if step.CloseRuntimeThrows? then [] else m.closers[c][1..])
            && after.shut == m.shut + (if step.SkipRejected? then {} else {m.closers[c][0]})
            && after.promises == m.promises && after.runtimes == m.runtimes && after.started == m.started && after.closed == m.closed
  {
  }

  /** In every run, the runtimes whose close was called are exactly those at the head of a closing call when it took its turn. */
  lemma {:induction false} ShutExactly(states: seq<Manager>, steps: seq<Step>, n: nat, p: nat)
    requires IsRun(states, steps) && Initial(states[0]) && n < |states|
    ensures p in states[n].shut <==> exists k: nat :: k < n && Closes(states[k], steps[k], p)
  {
    if n > 0 {
      ShutExactly(states, steps, n - 1, p);
      ShutOrDroppedStep(states[n - 1], steps[n - 1], p);
    }
  }

  // ---------- how a shutdown loses a runtime ----------

  /** Two runtimes start, the shutdown's first close throws, and the second runtime is never closed. */
  function FailingShutdown(a: string, b: string): seq<Step> {
    [Request(a), Request(b), StartSucceeds(0), StartSucceeds(1), Step.Close([0, 1]), CloseRuntimeThrows(0)]
  }

  ghost predicate Goes(m: Manager, step: Step, after: Manager) {
    Enabled(m, step) && after == Apply(m, step)
  }

  function Started(a: string, b: string): Manager {
    Manager([Start(a, Fulfilled), Start(b, Fulfilled)], map[a := 0, b := 1], map[a := 0, b := 1], false, [], {}, {}, multiset{})
  }

  lemma TwoStart(a: string, b: string, s: seq<Manager>)
    requires a != b && |s| == 5 && s[0] == Manager([], map[], map[], false, [], {}, {}, multiset{})
    requires s[1] == s[0].(promises := [Start(a, Pending)], runtimes := map[a := 0])
    requires s[2] == s[1].(promises := [Start(a, Pending), Start(b, Pending)], runtimes := map[a := 0, b := 1])
    requires s[3] == s[2].(promises := [Start(a, Fulfilled), Start(b, Pending)], started := map[a := 0])
    requires s[4] == Started(a, b)
    ensures Goes(s[0], Request(a), s[1]) && Goes(s[1], Request(b), s[2])
    ensures Goes(s[2], StartSucceeds(0), s[3]) && Goes(s[3], StartSucceeds(1), s[4])
  {
  }

  lemma BothAreTaken(a: string, b: string)
    requires a != b
    ensures Goes(Started(a, b), Step.Close([0, 1]), ShutDown(Started(a, b), [0, 1]))
  {
    var m := Started(a, b);
    assert m.runtimes[a] == 0 && m.runtimes[b] == 1 && m.runtimes.Values == {0, 1};
    assert (set p | p in [0, 1]) == {0, 1};
  }

  lemma FirstCloseThrows(shut: Manager, last: Manager)
    requires |shut.promises| == 2 && shut.promises[0].status.Fulfilled?
    requires shut.closers == [[0, 1]] && shut.shut == {} && shut.abandoned == {}
    requires last == shut.(closers := [[]], shut := {0}, abandoned := {1})
    ensures Goes(shut, CloseRuntimeThrows(0), last) && Drops(shut, CloseRuntimeThrows(0), 1)
  {
    assert [0, 1][1..] == [1] && (set p | p in [1]) == {1};
  }

  lemma FailingShutdownLosesOne(a: string, b: string) returns (states: seq<Manager>)
    requires a != b
    ensures IsRun(states, FailingShutdown(a, b)) && Initial(states[0])
    ensures var last := states[|states| - 1];
            && |last.promises| == 2 && last.promises[1] == Start(b, Fulfilled) && last.closed
            && 0 in last.shut && !InHand(last, 1) && last.closers == [[]]
  {
    var s0 := Manager([], map[], map[], false, [], {}, {}, multiset{});
    var s1 := s0.(promises := [Start(a, Pending)], runtimes := map[a := 0]);
    var s2 := s1.(promises := [Start(a, Pending), Start(b, Pending)], runtimes := map[a := 0, b := 1]);
    var s3 := s2.(promises := [Start(a, Fulfilled), Start(b, Pending)], started := map[a := 0]);
    var shut := ShutDown(Started(a, b), [0, 1]);
    var last := shut.(closers := [[]], shut := {0}, abandoned := {1});
    TwoStart(a, b, [s0, s1, s2, s3, Started(a, b)]);
    BothAreTaken(a, b);
    assert shut.closers == [[0, 1]];
    FirstCloseThrows(shut, last);
    states := [s0, s1, s2, s3, Started(a, b), shut, last];
    GoesAll(states, FailingShutdown(a, b));
    LostForEver(states, FailingShutdown(a, b), 5, 6, 1);
  }

  lemma GoesAll(s: seq<Manager>, steps: seq<Step>)
    requires |s| == 7 && |steps| == 6
    requires Goes(s[0], steps[0], s[1]) && Goes(s[1], steps[1], s[2]) && Goes(s[2], steps[2], s[3])
    requires Goes(s[3], steps[3], s[4]) && Goes(s[4], steps[4], s[5]) && Goes(s[5], steps[5], s[6])
    ensures IsRun(s, steps)
  {
    assert forall n :: 0 <= n < 6 ==> Goes(s[n], steps[n], s[n + 1]);
  }

  /** After shutdown nothing is ever cached again. */
  lemma {:induction false} ClosedForEver(states: seq<Manager>, steps: seq<Step>, from: nat, n: nat)
    requires IsRun(states, steps) && Initial(states[0]) && from <= n < |states| && states[from].closed
    ensures states[n].closed && states[n].runtimes == map[] && states[n].started == map[]
            && |states[n].promises| == |states[from].promises|
  {
    if from < n {
      ClosedForEver(states, steps, from, n - 1);
      ClosedStep(states[n - 1], steps[n - 1]);
    }
    RunKeepsInv(states, steps, n);
    ClosedIsEmpty(states[n]);
  }

  lemma ClosedIsEmpty(m: Manager)
    requires CacheOk(m) && m.closed
    ensures m.runtimes == map[] && m.started == map[]
  {
    forall e ensures e !in m.started {
      assert EntryOk(m, e);
    }
  }

  lemma ClosedStep(m: Manager, step: Step)
    requires Enabled(m, step) && m.closed
    ensures Apply(m, step).closed && |Apply(m, step).promises| == |m.promises|
  {
  }

  // ---------- the manager object, one synchronous stretch of code at a time ----------

  class ManagedPostgresDataPlaneManager {
    var runtimes: map<string, nat>
    var started: map<string, nat>
    var closed: bool
    // What the event loop keeps for the manager: the start promises and the pending suspend and close calls.
    var promises: seq<Start>
    var closers: seq<seq<nat>>
    ghost var shut: set<nat>
    ghost var abandoned: set<nat>
    ghost var removed: multiset<string>

    ghost function View(): Manager
      reads this
    {
      Manager(promises, runtimes, started, closed, closers, shut, abandoned, removed)
    }

    constructor ()
      ensures Initial(View())
    {
      runtimes, started, closed := map[], map[], false;
      promises, closers := [], [];
      shut, abandoned, removed := {}, {}, multiset{};
    }

    /** Concurrent first requests share one start; after shutdown there is none. */
    method RuntimeFor(environment: string) returns (promise: Option<nat>)
      requires CacheOk(View())
      modifies this
      ensures View() == Apply(old(View()), Request(environment))
      ensures promise.None? <==> closed
      ensures promise.Some? ==> Cached(View(), promise.value) && promises[promise.value].environment == environment
      ensures promise.Some? && old(environment !in runtimes) ==> promises == old(promises) + [Start(environment, Pending)]
    {
      assert EntryOk(View(), environment);
      if closed {
        return None;
      }
      if environment in runtimes {
        return Some(runtimes[environment]);
      }
      promise := Some(|promises|);
      promises := promises + [Start(environment, Pending)];
      runtimes := runtimes[environment := promise.value];
    }

    method OnStarted(p: nat)
      requires Enabled(View(), StartSucceeds(p))
      modifies this
      ensures View() == Apply(old(View()), StartSucceeds(p))
    {
      var environment := promises[p].environment;
      if environment in runtimes && runtimes[environment] == p {
        started := started[environment := p];
      }
      promises := promises[p := promises[p].(status := Fulfilled)];
    }

    method OnStartFailed(p: nat)
      requires Enabled(View(), StartFails(p))
      modifies this
      ensures View() == Apply(old(View()), StartFails(p))
    {
      var environment := promises[p].environment;
      if environment in runtimes && runtimes[environment] == p {
        runtimes := runtimes - {environment};
        removed := removed + multiset{environment};
      }
      promises := promises[p := promises[p].(status := Rejected)];
    }

    method Suspend(environment: string)
      modifies this
      ensures View() == Apply(old(View()), Step.Suspend(environment))
      ensures environment !in runtimes && (old(environment in runtimes) ==> environment !in started)
      ensures old(environment in runtimes) ==> closers == old(closers + [[runtimes[environment]]])
      ensures forall e :: e != environment && e in old(runtimes) ==> e in runtimes && runtimes[e] == old(runtimes)[e]
    {
      if environment in runtimes {
        closers := closers + [[runtimes[environment]]];
        runtimes := runtimes - {environment};
        started := started - {environment};
        removed := removed + multiset{environment};
      }
    }

    /** Takes every cached promise, in the order the map yields them, and empties the cache. */
    method Close() returns (order: seq<nat>)
      requires CacheOk(View())
      modifies this
      ensures Enabled(old(View()), Step.Close(order)) && View() == Apply(old(View()), Step.Close(order))
    {
      closed := true;
      order := [];
      var rest := runtimes.Keys;
      while rest != {}
        invariant rest <= runtimes.Keys && View() == old(View()).(closed := true)
        invariant forall p :: p in order <==> exists e :: e in runtimes && e !in rest && runtimes[e] == p
        invariant Distinct(order)
        decreases rest
      {
        var e :| e in rest;
        assert EntryOk(old(View()), e);
        forall p | p in order ensures p != runtimes[e] {
          var other :| other in runtimes && other !in rest && runtimes[other] == p;
          assert EntryOk(old(View()), other);
        }
        assert forall i :: 0 <= i < |order| ==> order[i] in order;
        order := order + [runtimes[e]];
        rest := rest - {e};
      }
      removed := removed + multiset(runtimes.Keys);
      runtimes, started := map[], map[];
      closers := closers + [order];
    }

    /** One turn of a pending suspend or close call: wait for the next promise and close its runtime, if it has one. */
    method CloseNext(c: nat, throws: bool)
      requires Heads(View(), c, Fulfilled) || Heads(View(), c, Rejected)
      modifies this
      ensures old(Heads(View(), c, Rejected)) ==> View() == Apply(old(View()), SkipRejected(c))
      ensures old(Heads(View(), c, Fulfilled)) ==>
                View() == Apply(old(View()), if throws then CloseRuntimeThrows(c) else CloseRuntime(c))
    {
      var p := closers[c][0];
      var rest := closers[c][1..];
      if promises[p].status.Fulfilled? {
        shut := shut + {p};
        if throws {
          abandoned := abandoned + (set q | q in rest);
          rest := [];
        }
      }
      closers := closers[c := rest];
    }
  }
}
