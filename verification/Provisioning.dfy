/** The provisioning queue of the in-memory repository: jobs with leases, and the environments they provision. */
module ProvisioningQueue {
  import opened Prelude
  import opened Text

  const MAX_ATTEMPTS: nat := 5

  datatype JobStatus = Pending | Running | Succeeded | Failed

  datatype EnvironmentStatus = AwaitingJob | Provisioning | Ready | ProvisioningFailed | Suspended

  datatype ProvisioningResult = ProvisioningResult(apiUrl: string, adminUrl: Option<string>)

  /** `result` is a history field: what the completing call was given. */
  datatype Job = Job(
    id: string, environment: string, status: JobStatus, attempts: nat, availableAt: int,
    claimedBy: Option<string>, claimedUntil: Option<int>, lastError: Option<string>, result: Option<ProvisioningResult>)

  datatype Environment = Environment(
    id: string, project: string, slug: string, status: EnvironmentStatus,
    apiUrl: Option<string>, adminUrl: Option<string>, statusMessage: Option<string>)

  /** Jobs are kept in the order they were created. */
  datatype Repository = Repository(jobs: seq<Job>, environments: map<string, Environment>)

  function JobId(environment: string): string {
    "provision_" + environment
  }

  predicate Settled(job: Job) {
    job.status.Succeeded? || job.status.Failed?
  }

  predicate ValidClaim(worker: string, leaseSeconds: int) {
    Trim(worker) != "" && leaseSeconds >= 5
  }

  predicate Claimable(job: Job, now: int) {
    job.status.Pending? || (job.status.Running? && job.claimedUntil.Some? && job.claimedUntil.value < now)
  }

  /** The position of the first claimable job at or after `from`, or the number of jobs. */
  function FirstClaimable(jobs: seq<Job>, now: int, from: nat): (i: nat)
    requires from <= |jobs|
    ensures from <= i <= |jobs|
    ensures i < |jobs| ==> Claimable(jobs[i], now)
    ensures forall k :: from <= k < i ==> !Claimable(jobs[k], now)
    decreases |jobs| - from
  {
    if from == |jobs| || Claimable(jobs[from], now) then from else FirstClaimable(jobs, now, from + 1)
  }

  function Position(jobs: seq<Job>, id: string, from: nat): (i: nat)
    requires from <= |jobs|
    ensures from <= i <= |jobs|
    ensures i < |jobs| ==> jobs[i].id == id
    ensures forall k :: from <= k < i ==> jobs[k].id != id
    decreases |jobs| - from
  {
    if from == |jobs| || jobs[from].id == id then from else Position(jobs, id, from + 1)
  }

  function SlugTaken(environments: map<string, Environment>, project: string, slug: string): bool {
    exists id :: id in environments && environments[id].project == project && environments[id].slug == slug
  }

  function Create(r: Repository, id: string, project: string, slug: string, now: int): Option<Repository> {
    if id in r.environments || SlugTaken(r.environments, project, slug) then None
    else Some(Repository(
                r.jobs + [Job(JobId(id), id, Pending, 0, now, None, None, None, None)],
                r.environments[id := Environment(id, project, slug, AwaitingJob, None, None, None)]))
  }

  function SetStatus(environments: map<string, Environment>, id: string, status: EnvironmentStatus, note: Option<string>)
    : map<string, Environment>
  {
    if id in environments then environments[id := environments[id].(status := status, statusMessage := note)]
    else environments
  }

  function ClaimedJob(job: Job, worker: string, leaseSeconds: int, now: int): Job {
    job.(status := Running, attempts := job.attempts + 1, claimedBy := Some(worker), claimedUntil := Some(now + leaseSeconds * 1_000))
  }

  function ClaimAt(r: Repository, i: nat, worker: string, leaseSeconds: int, now: int): Repository
    requires i < |r.jobs|
  {
    Repository(r.jobs[i := ClaimedJob(r.jobs[i], worker, leaseSeconds, now)],
               SetStatus(r.environments, r.jobs[i].environment, Provisioning, None))
  }

  /** An empty text counts as none. */
  function Given(text: Option<string>): Option<string> {
    if text == Some("") then None else text
  }

  predicate GivesAdminUrl(result: ProvisioningResult) {
    result.adminUrl.Some? && result.adminUrl.value != ""
  }

  /** The job is settled before its environment is looked up; a missing environment is reported after that. */
  function CompleteAt(r: Repository, i: nat, result: ProvisioningResult): Repository
    requires i < |r.jobs|
  {
    var job := r.jobs[i].(status := Succeeded, claimedBy := None, claimedUntil := None, lastError := None, result := Some(result));
    Repository(r.jobs[i := job],
               if job.environment in r.environments then
                 var e := r.environments[job.environment];
                 r.environments[job.environment :=
                   e.(status := Ready, apiUrl := Some(result.apiUrl), statusMessage := None,
                      adminUrl := if GivesAdminUrl(result) then result.adminUrl else e.adminUrl)]
               else r.environments)
  }

  predicate Exhausted(job: Job, retryAt: Option<int>) {
    job.attempts >= MAX_ATTEMPTS || retryAt.None?
  }

  function FailedJob(job: Job, message: string, retryAt: Option<int>): Job {
    job.(status := if Exhausted(job, retryAt) then Failed else Pending, lastError := Some(message),
         availableAt := if retryAt.Some? then retryAt.value else job.availableAt, claimedBy := None, claimedUntil := None)
  }

  function FailAt(r: Repository, i: nat, message: string, retryAt: Option<int>): Repository
    requires i < |r.jobs|
  {
    Repository(r.jobs[i := FailedJob(r.jobs[i], message, retryAt)],
               SetStatus(r.environments, r.jobs[i].environment,
                         if Exhausted(r.jobs[i], retryAt) then ProvisioningFailed else AwaitingJob, Some(message)))
  }

  predicate IsRunning(r: Repository, id: string) {
    Position(r.jobs, id, 0) < |r.jobs| && r.jobs[Position(r.jobs, id, 0)].status.Running?
  }

  // ---------- every interleaving of any number of workers ----------

  /**
   A worker that stalls past its lease still completes or fails its job later: neither call
   checks who holds the claim.  `Attach` and `Override` are the two other ways to change an
   environment.
   */
  datatype Step =
    | CreateEnvironment(environment: string, project: string, slug: string, now: int)
    | Claim(worker: string, leaseSeconds: int, now: int)
    | Complete(job: string, result: ProvisioningResult)
    | Fail(job: string, message: string, retryAt: Option<int>)
    | Attach(environment: string, apiUrl: string, adminUrl: Option<string>, status: EnvironmentStatus, note: Option<string>)
    | Override(environment: string, status: EnvironmentStatus, note: Option<string>, newApiUrl: Option<string>, newAdminUrl: Option<string>)

  function Apply(r: Repository, step: Step): Repository {
    match step
    case CreateEnvironment(id, project, slug, now) =>
      (match Create(r, id, project, slug, now) case Some(created) => created case None => r)
    case Claim(worker, lease, now) =>
      var i := FirstClaimable(r.jobs, now, 0);
      if !ValidClaim(worker, lease) || i == |r.jobs| then r else ClaimAt(r, i, worker, lease, now)
    case Complete(job, result) => if IsRunning(r, job) then CompleteAt(r, Position(r.jobs, job, 0), result) else r
    case Fail(job, message, retryAt) => if IsRunning(r, job) then FailAt(r, Position(r.jobs, job, 0), message, retryAt) else r
    case Attach(id, apiUrl, adminUrl, status, note) =>
      if id !in r.environments then r
      else r.(environments := r.environments[id := r.environments[id].(status := status, apiUrl := Some(apiUrl),
                                                                      adminUrl := Given(adminUrl), statusMessage := Given(note))])
    case Override(id, status, note, apiUrl, adminUrl) =>
      if id !in r.environments then r
      else
        var e := r.environments[id];
        r.(environments := r.environments[id := e.(status := status, statusMessage := Given(note),
                                                   apiUrl := if Given(apiUrl).Some? then apiUrl else e.apiUrl,
                                                   adminUrl := if Given(adminUrl).Some? then adminUrl else e.adminUrl)])
  }

  ghost predicate IsRun(states: seq<Repository>, steps: seq<Step>) {
    && |states| == |steps| + 1
    && forall n :: 0 <= n < |steps| ==> states[n + 1] == Apply(states[n], steps[n])
  }

  ghost predicate Inv(r: Repository) {
    && (forall i, j :: 0 <= i < j < |r.jobs| ==> r.jobs[i].id != r.jobs[j].id && r.jobs[i].environment != r.jobs[j].environment)
    && (forall i :: 0 <= i < |r.jobs| ==> JobOk(r.jobs[i]) && r.jobs[i].environment in r.environments)
  }

  /** A job carries a lease exactly while it runs, and waits only while it has attempts left. */
  predicate JobOk(job: Job) {
    && job.id == JobId(job.environment)
    && (job.claimedBy.Some? <==> job.status.Running?)
    && (job.claimedUntil.Some? <==> job.status.Running?)
    && (job.status.Pending? ==> job.attempts < MAX_ATTEMPTS)
    && (job.status.Running? ==> job.attempts > 0)
    && (job.result.Some? <==> job.status.Succeeded?)
  }

  /** A job in the list is replaced by one of the same ids that is sound; environments are only added or changed. */
  lemma ReplacedJobKeepsInv(r: Repository, i: nat, job: Job, after: Repository)
    requires Inv(r) && i < |r.jobs| && after.jobs == r.jobs[i := job] && r.environments.Keys <= after.environments.Keys
    requires job.id == r.jobs[i].id && job.environment == r.jobs[i].environment && JobOk(job)
    ensures Inv(after)
  {
  }

  lemma CreationKeepsInv(r: Repository, step: Step)
    requires Inv(r) && step.CreateEnvironment?
    ensures Inv(Apply(r, step))
  {
    if step.environment !in r.environments {
      DistinctIds(r, step.environment);
    }
  }

  lemma InvStep(r: Repository, step: Step)
    requires Inv(r)
    ensures Inv(Apply(r, step))
  {
    var after := Apply(r, step);
    if step.CreateEnvironment? {
      CreationKeepsInv(r, step);
    } else if step.Claim? {
      var i := FirstClaimable(r.jobs, step.now, 0);
      if i < |r.jobs| {
        ReplacedJobKeepsInv(r, i, after.jobs[i], after);
      }
    } else if (step.Complete? || step.Fail?) && IsRunning(r, step.job) {
      var i := Position(r.jobs, step.job, 0);
      assert JobOk(r.jobs[i]);
      ReplacedJobKeepsInv(r, i, after.jobs[i], after);
    }
  }

  lemma DistinctIds(r: Repository, id: string)
    requires Inv(r) && id !in r.environments
    ensures forall i :: 0 <= i < |r.jobs| ==> r.jobs[i].id != JobId(id)
  {
    forall i | 0 <= i < |r.jobs| ensures r.jobs[i].id != JobId(id) {
      assert JobId(id)[|"provision_"|..] == id;
      assert JobId(r.jobs[i].environment)[|"provision_"|..] == r.jobs[i].environment;
    }
  }

  lemma {:induction false} RunKeepsInv(states: seq<Repository>, steps: seq<Step>, n: nat)
    requires IsRun(states, steps) && Inv(states[0]) && n < |states|
    ensures Inv(states[n])
  {
    if n > 0 {
      RunKeepsInv(states, steps, n - 1);
      InvStep(states[n - 1], steps[n - 1]);
    }
  }

  predicate Claims(r: Repository, step: Step, i: nat) {
    step.Claim? && ValidClaim(step.worker, step.leaseSeconds) && i == FirstClaimable(r.jobs, step.now, 0) && i < |r.jobs|
  }

  predicate Settles(r: Repository, step: Step, i: nat) {
    (step.Complete? || step.Fail?) && IsRunning(r, step.job) && Position(r.jobs, step.job, 0) == i
  }

  /** A job changes only when it is claimed or settled. */
  lemma JobsMoveByClaimAndSettlement(r: Repository, step: Step, i: nat)
    requires i < |r.jobs| && !Claims(r, step, i) && !Settles(r, step, i)
    ensures i < |Apply(r, step).jobs| && Apply(r, step).jobs[i] == r.jobs[i]
  {
  }

  /** `succeeded` and `failed` are absorbing. */
  lemma {:induction false} SettledForEver(states: seq<Repository>, steps: seq<Step>, from: nat, n: nat, i: nat)
    requires IsRun(states, steps) && from <= n < |states|
    requires i < |states[from].jobs| && Settled(states[from].jobs[i])
    ensures i < |states[n].jobs| && states[n].jobs[i] == states[from].jobs[i]
  {
    if from < n {
      SettledForEver(states, steps, from, n - 1, i);
      JobsMoveByClaimAndSettlement(states[n - 1], steps[n - 1], i);
    }
  }

  /**
   Two claims of a job with no settlement between them hold it at disjoint times: the later
   one begins after the earlier lease has run out, whatever the workers' clocks show in between.
   */
  lemma LeasesAreDisjoint(states: seq<Repository>, steps: seq<Step>, first: nat, second: nat, i: nat)
    requires IsRun(states, steps) && first < second < |steps|
    requires Claims(states[first], steps[first], i) && Claims(states[second], steps[second], i)
    requires forall k :: first < k < second ==> !Settles(states[k], steps[k], i)
    ensures steps[first].now + steps[first].leaseSeconds * 1_000 < steps[second].now
  {
    LeaseGrows(states, steps, first, second, i);
  }

  lemma {:induction false} LeaseGrows(states: seq<Repository>, steps: seq<Step>, first: nat, n: nat, i: nat)
    requires IsRun(states, steps) && first < n < |states|
    requires Claims(states[first], steps[first], i)
    requires forall k :: first < k < n ==> !Settles(states[k], steps[k], i)
    ensures i < |states[n].jobs| && states[n].jobs[i].status.Running? && states[n].jobs[i].claimedUntil.Some?
            && steps[first].now + steps[first].leaseSeconds * 1_000 <= states[n].jobs[i].claimedUntil.value
  {
    if first + 1 < n {
      LeaseGrows(states, steps, first, n - 1, i);
      if !Claims(states[n - 1], steps[n - 1], i) {
        JobsMoveByClaimAndSettlement(states[n - 1], steps[n - 1], i);
      }
    }
  }

  // ---------- what each call does, told of the repository ----------

  /** An environment is created exactly when its id is new and its project has none of that slug, with a pending job at the end of the queue. */
  lemma CreatedExactly(r: Repository, id: string, project: string, slug: string, now: int)
    ensures var after := Apply(r, Step.CreateEnvironment(id, project, slug, now));
            if id in r.environments
               || exists other :: other in r.environments && r.environments[other].project == project && r.environments[other].slug == slug
            then after == r && Create(r, id, project, slug, now).None?
            else
              && Create(r, id, project, slug, now) == Some(after)
              && after.environments == r.environments[id := Environment(id, project, slug, AwaitingJob, None, None, None)]
              && after.jobs == r.jobs + [Job("provision_" + id, id, Pending, 0, now, None, None, None, None)]
  {
  }

  /** A valid claim takes the first job that is pending or whose lease has run out, for its lease from now on, and counts the attempt. */
  lemma ClaimedExactly(r: Repository, worker: string, leaseSeconds: int, now: int, i: nat)
    requires Trim(worker) != "" && leaseSeconds >= 5 && i < |r.jobs|
    requires r.jobs[i].status.Pending? || (r.jobs[i].status.Running? && r.jobs[i].claimedUntil.Some? && r.jobs[i].claimedUntil.value < now)
    requires forall k :: 0 <= k < i ==>
               && !r.jobs[k].status.Pending?
               && (r.jobs[k].status.Running? && r.jobs[k].claimedUntil.Some? ==> now <= r.jobs[k].claimedUntil.value)
    ensures var after := Apply(r, Step.Claim(worker, leaseSeconds, now));
            && after.jobs == r.jobs[i := r.jobs[i].(status := Running, attempts := r.jobs[i].attempts + 1, claimedBy := Some(worker),
                                                    claimedUntil := Some(now + leaseSeconds * 1_000))]
            && after.environments.Keys == r.environments.Keys
            && forall e :: e in r.environments ==>
                 after.environments[e] == if e == r.jobs[i].environment
                                          then r.environments[e].(status := Provisioning, statusMessage := None) else r.environments[e]
  {
    assert FirstClaimable(r.jobs, now, 0) == i;
  }

  /** No claim is made by nobody, for less than five seconds, or when every job is settled or leased. */
  lemma NotClaimedExactly(r: Repository, worker: string, leaseSeconds: int, now: int)
    requires || Trim(worker) == "" || leaseSeconds < 5
             || forall k :: 0 <= k < |r.jobs| ==>
                  && !r.jobs[k].status.Pending?
                  && (r.jobs[k].status.Running? && r.jobs[k].claimedUntil.Some? ==> now <= r.jobs[k].claimedUntil.value)
    ensures Apply(r, Step.Claim(worker, leaseSeconds, now)) == r
  {
  }

  /** A job that runs is completed whoever asks: it has no lease and no error any more, and its environment gets the URLs that were given. */
  lemma CompletedExactly(r: Repository, i: nat, result: ProvisioningResult)
    requires Inv(r) && i < |r.jobs|
    ensures var (job, after) := (r.jobs[i], Apply(r, Step.Complete(r.jobs[i].id, result)));
            if !job.status.Running? then after == r
            else
              && after.jobs == r.jobs[i := job.(status := Succeeded, claimedBy := None, claimedUntil := None, lastError := None,
                                                result := Some(result))]
              && var e := r.environments[job.environment];
                 var adminUrl := if result.adminUrl.Some? && result.adminUrl.value != "" then result.adminUrl else e.adminUrl;
                 after.environments == r.environments[job.environment :=
                   e.(status := Ready, apiUrl := Some(result.apiUrl), adminUrl := adminUrl, statusMessage := None)]
  {
    assert Position(r.jobs, r.jobs[i].id, 0) == i;
  }

  /** A job that runs goes back to the queue when it has had fewer than five attempts and a time to retry, and has failed otherwise. */
  lemma FailedExactly(r: Repository, i: nat, message: string, retryAt: Option<int>)
    requires Inv(r) && i < |r.jobs|
    ensures var (job, after) := (r.jobs[i], Apply(r, Step.Fail(r.jobs[i].id, message, retryAt)));
            if !job.status.Running? then after == r
            else
              var again := job.attempts < 5 && retryAt.Some?;
              && after.jobs == r.jobs[i := job.(status := if again then Pending else Failed, lastError := Some(message),
                                                availableAt := if retryAt.Some? then retryAt.value else job.availableAt,
                                                claimedBy := None, claimedUntil := None)]
              && after.environments == r.environments[job.environment := r.environments[job.environment].(
                   status := if again then AwaitingJob else ProvisioningFailed, statusMessage := Some(message))]
  {
    assert Position(r.jobs, r.jobs[i].id, 0) == i;
  }

  predicate SameSlug(a: Environment, b: Environment) {
    a.project == b.project && a.slug == b.slug
  }

  /** What an operator sets on an environment is set on that one, and reaches no job. */
  lemma SetByHandExactly(r: Repository, step: Step)
    requires step.Attach? || step.Override?
    ensures var after := Apply(r, step);
            && after.jobs == r.jobs
            && if step.environment !in r.environments then after == r
               else
                 var (e, now) := (r.environments[step.environment], after.environments[step.environment]);
                 && after.environments.Keys == r.environments.Keys
                 && (forall other :: other in r.environments && other != step.environment ==>
                       after.environments[other] == r.environments[other])
                 && now.id == e.id && now.project == e.project && now.slug == e.slug && now.status == step.status
                 && now.statusMessage == (if step.note == Some("") then None else step.note)
                 && (step.Attach? ==>
                       now.apiUrl == Some(step.apiUrl) && now.adminUrl == if step.adminUrl == Some("") then None else step.adminUrl)
                 && (step.Override? ==>
                       && now.apiUrl == (if step.newApiUrl.Some? && step.newApiUrl.value != "" then step.newApiUrl else e.apiUrl)
                       && now.adminUrl == (if step.newAdminUrl.Some? && step.newAdminUrl.value != "" then step.newAdminUrl else e.adminUrl))
  {
  }

  /** A project has one environment of a slug. */
  ghost predicate SlugsDiffer(r: Repository) {
    forall a, b :: a in r.environments && b in r.environments && SameSlug(r.environments[a], r.environments[b]) ==> a == b
  }

  lemma SlugsStay(r: Repository, step: Step, e: string)
    requires e in Apply(r, step).environments
    ensures var after := Apply(r, step).environments[e];
            if e in r.environments then after.project == r.environments[e].project && after.slug == r.environments[e].slug
            else step.CreateEnvironment? && step.environment == e && after.project == step.project && after.slug == step.slug
                 && !SlugTaken(r.environments, step.project, step.slug)
  {
  }

  lemma SlugsStep(r: Repository, step: Step)
    requires SlugsDiffer(r)
    ensures SlugsDiffer(Apply(r, step))
  {
    var after := Apply(r, step);
    forall a, b | a in after.environments && b in after.environments && SameSlug(after.environments[a], after.environments[b])
      ensures a == b
    {
      SlugsStay(r, step, a);
      SlugsStay(r, step, b);
    }
  }

  /** In every run slugs are unique in their project, whatever is created, claimed, settled, attached and overridden. */
  lemma {:induction false} SlugsAreUnique(states: seq<Repository>, steps: seq<Step>, n: nat)
    requires IsRun(states, steps) && SlugsDiffer(states[0]) && n < |states|
    ensures SlugsDiffer(states[n])
  {
    if n > 0 {
      SlugsAreUnique(states, steps, n - 1);
      SlugsStep(states[n - 1], steps[n - 1]);
    }
  }

  // ---------- the environment mirrors its job ----------

  function Mirror(status: JobStatus): EnvironmentStatus {
    match status
    case Pending => AwaitingJob
    case Running => Provisioning
    case Succeeded => Ready
    case Failed => ProvisioningFailed
  }

  ghost predicate Mirrors(r: Repository) {
    forall i :: 0 <= i < |r.jobs| ==> MirrorsJob(r, r.jobs[i])
  }

  /** A ready environment carries the URLs of the call that completed its job. */
  predicate MirrorsJob(r: Repository, job: Job) {
    && job.environment in r.environments
    && r.environments[job.environment].status == Mirror(job.status)
    && (job.result.Some? ==>
          && r.environments[job.environment].apiUrl == Some(job.result.value.apiUrl)
          && (GivesAdminUrl(job.result.value) ==> r.environments[job.environment].adminUrl == job.result.value.adminUrl))
  }

  lemma MirrorStep(r: Repository, step: Step)
    requires Inv(r) && Mirrors(r) && !step.Attach? && !step.Override?
    ensures Mirrors(Apply(r, step))
  {
    var after := Apply(r, step);
    forall k | 0 <= k < |after.jobs| ensures MirrorsJob(after, after.jobs[k]) {
      if k < |r.jobs| {
        assert MirrorsJob(r, r.jobs[k]) && JobOk(r.jobs[k]);
      }
    }
  }

  lemma {:induction false} EnvironmentsMirrorTheirJobs(states: seq<Repository>, steps: seq<Step>, n: nat)
    requires IsRun(states, steps) && n < |states|
    requires Inv(states[0]) && Mirrors(states[0])
    requires forall k :: 0 <= k < |steps| ==> !steps[k].Attach? && !steps[k].Override?
    ensures Mirrors(states[n])
  {
    if n > 0 {
      EnvironmentsMirrorTheirJobs(states, steps, n - 1);
      RunKeepsInv(states, steps, n - 1);
      MirrorStep(states[n - 1], steps[n - 1]);
    }
  }
}

/** The repository object and the worker that drives it. */
module ProvisioningWorker {
  import opened Prelude
  import opened Text
  import opened ProvisioningQueue

  datatype RunResult = Idle | Completed | Retrying | GaveUp | Threw

  const MAX_BACKOFF_MS: int := 300_000

  function Pow2(n: nat): nat {
    if n == 0 then 1 else 2 * Pow2(n - 1)
  }

  function Backoff(attempts: nat): int {
    if Pow2(attempts) * 1_000 < MAX_BACKOFF_MS then Pow2(attempts) * 1_000 else MAX_BACKOFF_MS
  }

  /** When a worker that saw this many attempts asks for a retry. */
  function RetryAt(seen: nat, now: int): Option<int> {
    if seen >= MAX_ATTEMPTS then None else Some(now + Backoff(seen))
  }

  const NOT_FOUND := "Provisioning environment was not found"

  /** One call of `runOnce` that nothing interrupts; `answer` is whatever the provisioner does. */
  function Turn(r: Repository, worker: string, leaseSeconds: int, answer: Result<ProvisioningResult, string>, now: int, later: int)
    : (Repository, RunResult)
  {
    if !ValidClaim(worker, leaseSeconds) then (r, Threw)
    else
      var i := FirstClaimable(r.jobs, now, 0);
      if i == |r.jobs| then (r, Idle)
      else
        var claimed := ClaimAt(r, i, worker, leaseSeconds, now);
        var job := claimed.jobs[i];
        if job.environment !in claimed.environments then (FailAt(claimed, i, NOT_FOUND, None), GaveUp)
        else match answer
             case Ok(result) => (CompleteAt(claimed, i, result), Completed)
             case Err(message) =>
               (FailAt(claimed, i, message, RetryAt(job.attempts, later)),
                if job.attempts >= MAX_ATTEMPTS then GaveUp else Retrying)
  }

  // ---------- a call that waits for the provisioner while others work ----------

  /** Up to the provisioner: the call has its result already, or it waits with the job it claimed. */
  function Begun(r: Repository, worker: string, leaseSeconds: int, now: int): (Repository, Option<RunResult>, Option<Job>) {
    if !ValidClaim(worker, leaseSeconds) then (r, Some(Threw), None)
    else
      var i := FirstClaimable(r.jobs, now, 0);
      if i == |r.jobs| then (r, Some(Idle), None)
      else
        var claimed := ClaimAt(r, i, worker, leaseSeconds, now);
        if claimed.jobs[i].environment in claimed.environments then (claimed, None, Some(claimed.jobs[i]))
        else (FailAt(claimed, i, NOT_FOUND, None), Some(GaveUp), None)
  }

  /** What a call says when its provisioner failed and the repository took the failure. */
  function Report(seen: nat): RunResult {
    if seen >= MAX_ATTEMPTS then GaveUp else Retrying
  }

  predicate Completable(r: Repository, id: string) {
    IsRunning(r, id) && r.jobs[Position(r.jobs, id, 0)].environment in r.environments
  }

  /**
   After the provisioner, whatever has become of the job since it was claimed.  A completion
   that throws is followed by a failure that throws too, as the job runs no more.
   */
  function Ended(r: Repository, job: Job, answer: Result<ProvisioningResult, string>, later: int): (Repository, RunResult) {
    match answer
    case Ok(result) => (Apply(r, Step.Complete(job.id, result)), if Completable(r, job.id) then Completed else Threw)
    case Err(message) =>
      (Apply(r, Step.Fail(job.id, message, RetryAt(job.attempts, later))),
       if IsRunning(r, job.id) then Report(job.attempts) else Threw)
  }

  lemma CompletedRunsNoMore(r: Repository, id: string, result: ProvisioningResult)
    ensures !IsRunning(Apply(r, Step.Complete(id, result)), id)
  {
    var (i, after) := (Position(r.jobs, id, 0), Apply(r, Step.Complete(id, result)));
    assert forall k :: 0 <= k < |r.jobs| ==> after.jobs[k].id == r.jobs[k].id;
    assert Position(after.jobs, id, 0) == i;
  }

  /** How often a job was claimed in a stretch of a run. */
  ghost function ClaimsOf(states: seq<Repository>, steps: seq<Step>, i: nat, from: nat, to: nat): nat
    requires from <= to <= |steps| < |states|
  {
    if from == to then 0 else ClaimsOf(states, steps, i, from, to - 1) + if Claims(states[to - 1], steps[to - 1], i) then 1 else 0
  }

  lemma AttemptsStep(r: Repository, step: Step, i: nat)
    requires i < |r.jobs|
    ensures var after := Apply(r, step);
            && i < |after.jobs| && after.jobs[i].id == r.jobs[i].id
            && after.jobs[i].attempts == r.jobs[i].attempts + if Claims(r, step, i) then 1 else 0
  {
  }

  /** Attempts count claims, and nothing else. */
  lemma {:induction false} AttemptsCountClaims(states: seq<Repository>, steps: seq<Step>, i: nat, from: nat, n: nat)
    requires IsRun(states, steps) && from <= n < |states| && i < |states[from].jobs|
    ensures i < |states[n].jobs| && states[n].jobs[i].id == states[from].jobs[i].id
    ensures states[n].jobs[i].attempts == states[from].jobs[i].attempts + ClaimsOf(states, steps, i, from, n)
  {
    if from < n {
      AttemptsCountClaims(states, steps, i, from, n - 1);
      AttemptsStep(states[n - 1], steps[n - 1], i);
    }
  }

  /**
   In every run, a call that claimed a job and whose provisioner fails later reports what the
   repository does, if and only if it is not the case that others claimed the job meanwhile so
   often that they used its attempts up.
   */
  lemma ReportsAgreeExactly(states: seq<Repository>, steps: seq<Step>, m: nat, n: nat, i: nat, message: string, later: int)
    requires IsRun(states, steps) && Inv(states[0]) && m < n < |steps| && Claims(states[m], steps[m], i)
    requires steps[n] == Step.Fail(states[m + 1].jobs[i].id, message, RetryAt(states[m + 1].jobs[i].attempts, later))
    ensures i < |states[n].jobs| && i < |states[n + 1].jobs|
    ensures var (seen, meanwhile) := (states[m + 1].jobs[i].attempts, ClaimsOf(states, steps, i, m + 1, n));
            var report := Ended(states[n], states[m + 1].jobs[i], Err(message), later).1;
            if !states[n].jobs[i].status.Running? then report.Threw? && states[n + 1] == states[n]
            else (report.Retrying? <==> states[n + 1].jobs[i].status.Pending?)
                 <==> !(seen < MAX_ATTEMPTS <= seen + meanwhile)
  {
    AttemptsCountClaims(states, steps, i, m + 1, n);
    RunKeepsInv(states, steps, n);
    assert Position(states[n].jobs, states[n].jobs[i].id, 0) == i;
  }

  // ---------- how a worker comes to report a retry of a job that has failed ----------

  function Alone(job: Job, e: Environment): Repository {
    Repository([job], map[job.environment := e])
  }

  lemma ClaimAlone(job: Job, e: Environment, worker: string, leaseSeconds: int, now: int)
    requires Claimable(job, now) && ValidClaim(worker, leaseSeconds)
    ensures Claims(Alone(job, e), Step.Claim(worker, leaseSeconds, now), 0)
    ensures Apply(Alone(job, e), Step.Claim(worker, leaseSeconds, now))
            == Alone(ClaimedJob(job, worker, leaseSeconds, now), e.(status := Provisioning, statusMessage := None))
  {
  }

  lemma FailAlone(job: Job, e: Environment, message: string, retryAt: Option<int>)
    requires job.status.Running?
    ensures Apply(Alone(job, e), Step.Fail(job.id, message, retryAt))
            == Alone(FailedJob(job, message, retryAt),
                     e.(status := if Exhausted(job, retryAt) then ProvisioningFailed else AwaitingJob, statusMessage := Some(message)))
  {
  }

  function FailedThrice(job: string, worker: string, message: string): seq<Step> {
    [Step.Claim(worker, 5, 0), Step.Fail(job, message, RetryAt(1, 0)),
     Step.Claim(worker, 5, 0), Step.Fail(job, message, RetryAt(2, 0)),
     Step.Claim(worker, 5, 0), Step.Fail(job, message, RetryAt(3, 0))]
  }

  /** A fourth attempt outlasts its lease of five seconds, another worker claims the job, and the fourth fails. */
  function Superseded(job: string, slow: string, other: string, message: string): seq<Step> {
    [Step.Claim(slow, 5, 0), Step.Claim(other, 5, 5_001), Step.Fail(job, message, RetryAt(4, 5_001))]
  }

  function SupersededClaim(id: string, project: string, slug: string, slow: string, other: string, message: string): seq<Step> {
    [Step.CreateEnvironment(id, project, slug, 0)] + FailedThrice(JobId(id), slow, message) + Superseded(JobId(id), slow, other, message)
  }

  lemma ThreeFailures(s: seq<Repository>, job: Job, e: Environment, worker: string, message: string)
    requires |s| == 7 && ValidClaim(worker, 5) && job.status.Pending? && job.attempts == 0
    requires var j1 := ClaimedJob(job, worker, 5, 0);
             var j2 := FailedJob(j1, message, RetryAt(1, 0));
             var j3 := ClaimedJob(j2, worker, 5, 0);
             var j4 := FailedJob(j3, message, RetryAt(2, 0));
             var j5 := ClaimedJob(j4, worker, 5, 0);
             var j6 := FailedJob(j5, message, RetryAt(3, 0));
             var busy := e.(status := Provisioning, statusMessage := None);
             var waiting := e.(status := AwaitingJob, statusMessage := Some(message));
             s == [Alone(job, e), Alone(j1, busy), Alone(j2, waiting), Alone(j3, busy), Alone(j4, waiting), Alone(j5, busy),
                   Alone(j6, waiting)]
    ensures IsRun(s, FailedThrice(job.id, worker, message))
    ensures |s[6].jobs| == 1 && s[6].jobs[0].status.Pending? && s[6].jobs[0].attempts == 3 && s[6].jobs[0].id == job.id
  {
    var busy := e.(status := Provisioning, statusMessage := None);
    var waiting := e.(status := AwaitingJob, statusMessage := Some(message));
    ClaimAlone(s[0].jobs[0], e, worker, 5, 0);
    FailAlone(s[1].jobs[0], busy, message, RetryAt(1, 0));
    ClaimAlone(s[2].jobs[0], waiting, worker, 5, 0);
    FailAlone(s[3].jobs[0], busy, message, RetryAt(2, 0));
    ClaimAlone(s[4].jobs[0], waiting, worker, 5, 0);
    FailAlone(s[5].jobs[0], busy, message, RetryAt(3, 0));
  }

  lemma FourthOutlastsItsLease(s: seq<Repository>, job: Job, e: Environment, slow: string, other: string, message: string)
    requires |s| == 4 && ValidClaim(slow, 5) && ValidClaim(other, 5) && job.status.Pending? && job.attempts == 3
    requires var fourth := ClaimedJob(job, slow, 5, 0);
             var fifth := ClaimedJob(fourth, other, 5, 5_001);
             var busy := e.(status := Provisioning, statusMessage := None);
             s == [Alone(job, e), Alone(fourth, busy), Alone(fifth, busy),
                   Alone(FailedJob(fifth, message, RetryAt(4, 5_001)),
                         e.(status := ProvisioningFailed, statusMessage := Some(message)))]
    ensures IsRun(s, Superseded(job.id, slow, other, message))
    ensures s[3].jobs[0].status.Failed? && Ended(s[2], s[1].jobs[0], Err(message), 5_001) == (s[3], Retrying)
  {
    var busy := e.(status := Provisioning, statusMessage := None);
    ClaimAlone(job, e, slow, 5, 0);
    ClaimAlone(s[1].jobs[0], busy, other, 5, 5_001);
    FailAlone(s[2].jobs[0], busy, message, RetryAt(4, 5_001));
  }

  lemma RunsJoin(first: seq<Repository>, firstSteps: seq<Step>, second: seq<Repository>, secondSteps: seq<Step>)
    requires IsRun(first, firstSteps) && IsRun(second, secondSteps) && first[|firstSteps|] == second[0]
    ensures IsRun(first + second[1..], firstSteps + secondSteps)
  {
    var (states, steps) := (first + second[1..], firstSteps + secondSteps);
    forall n | 0 <= n < |steps| ensures states[n + 1] == Apply(states[n], steps[n]) {
      var k := n - |firstSteps|;
      if 0 <= k {
        assert states[n] == second[k] && states[n + 1] == second[k + 1] && steps[n] == secondSteps[k];
      }
    }
  }

  /** The run: the slow worker reports that it retries the job that its own report has just failed. */
  lemma SupersededClaimReportsARetry(id: string, project: string, slug: string, slow: string, other: string, message: string)
    returns (states: seq<Repository>)
    requires ValidClaim(slow, 5) && ValidClaim(other, 5)
    ensures IsRun(states, SupersededClaim(id, project, slug, slow, other, message)) && states[0] == Repository([], map[])
    ensures |states[8].jobs| == 1 && |states[10].jobs| == 1 && states[10].jobs[0].status.Failed?
    ensures Ended(states[9], states[8].jobs[0], Err(message), 5_001) == (states[10], Retrying)
  {
    var steps := SupersededClaim(id, project, slug, slow, other, message);
    var job := Job(JobId(id), id, Pending, 0, 0, None, None, None, None);
    var e := Environment(id, project, slug, AwaitingJob, None, None, None);
    var busy := e.(status := Provisioning, statusMessage := None);
    var waiting := e.(status := AwaitingJob, statusMessage := Some(message));
    var j1 := ClaimedJob(job, slow, 5, 0);
    var j2 := FailedJob(j1, message, RetryAt(1, 0));
    var j3 := ClaimedJob(j2, slow, 5, 0);
    var j4 := FailedJob(j3, message, RetryAt(2, 0));
    var j5 := ClaimedJob(j4, slow, 5, 0);
    var j6 := FailedJob(j5, message, RetryAt(3, 0));
    var first := [Alone(job, e), Alone(j1, busy), Alone(j2, waiting), Alone(j3, busy), Alone(j4, waiting), Alone(j5, busy),
                  Alone(j6, waiting)];
    ThreeFailures(first, job, e, slow, message);
    var fourth := ClaimedJob(j6, slow, 5, 0);
    var fifth := ClaimedJob(fourth, other, 5, 5_001);
    var second := [Alone(j6, waiting), Alone(fourth, busy), Alone(fifth, busy),
                   Alone(FailedJob(fifth, message, RetryAt(4, 5_001)), e.(status := ProvisioningFailed, statusMessage := Some(message)))];
    FourthOutlastsItsLease(second, j6, waiting, slow, other, message);
    var created := [Repository([], map[]), Alone(job, e)];
    var creation := [Step.CreateEnvironment(id, project, slug, 0)];
    assert IsRun(created, creation);
    RunsJoin(created, creation, first, FailedThrice(job.id, slow, message));
    RunsJoin(created + first[1..], creation + FailedThrice(job.id, slow, message), second, Superseded(job.id, slow, other, message));
    states := created + first[1..] + second[1..];
  }

  /** A single worker's answer is always the truth. */
  lemma RunResultIsTheJobStatus(r: Repository, worker: string, leaseSeconds: int, answer: Result<ProvisioningResult, string>,
                                now: int, later: int)
    requires Inv(r) && ValidClaim(worker, leaseSeconds)
    ensures var (after, result) := Turn(r, worker, leaseSeconds, answer, now, later);
            var i := FirstClaimable(r.jobs, now, 0);
            && (result.Idle? <==> i == |r.jobs|)
            && (i < |r.jobs| ==>
                  && (result.Retrying? <==> after.jobs[i].status.Pending?)
                  && (result.Completed? <==> after.jobs[i].status.Succeeded?)
                  && (result.GaveUp? <==> after.jobs[i].status.Failed?)
                  && after.jobs[i].attempts == r.jobs[i].attempts + 1
                  && forall k :: 0 <= k < |r.jobs| && k != i ==> after.jobs[k] == r.jobs[k])
  {
  }

  /** A failing job is retried after two, four, eight and sixteen seconds, and then never: the cap is not reached. */
  lemma BackoffDoubles(seen: nat, now: int)
    requires 0 < seen
    ensures RetryAt(seen, now)
            == if seen == 1 then Some(now + 2_000) else if seen == 2 then Some(now + 4_000)
               else if seen == 3 then Some(now + 8_000) else if seen == 4 then Some(now + 16_000) else None
  {
    assert Pow2(1) == 2 && Pow2(2) == 4 && Pow2(3) == 8 && Pow2(4) == 16;
  }

  /** The two halves of a call that nothing comes between are a turn. */
  lemma HalvesMakeATurn(r: Repository, worker: string, leaseSeconds: int, answer: Result<ProvisioningResult, string>, now: int, later: int)
    requires Inv(r)
    ensures var (claimed, early, job) := Begun(r, worker, leaseSeconds, now);
            Turn(r, worker, leaseSeconds, answer, now, later)
            == if early.Some? then (claimed, early.value)
               else if job.Some? then Ended(claimed, job.value, answer, later) else (r, Threw)
  {
    var i := FirstClaimable(r.jobs, now, 0);
    if ValidClaim(worker, leaseSeconds) && i < |r.jobs| {
      var claimed := ClaimAt(r, i, worker, leaseSeconds, now);
      assert forall k :: 0 <= k < |r.jobs| ==> claimed.jobs[k].id == r.jobs[k].id;
      assert Position(claimed.jobs, claimed.jobs[i].id, 0) == i;
    }
  }

  /** After the provisioner: if the job still runs the answer settles it, whoever has claimed it since, and otherwise nothing changes. */
  lemma EndedExactly(r: Repository, i: nat, seen: Job, answer: Result<ProvisioningResult, string>, later: int)
    requires Inv(r) && i < |r.jobs| && seen.id == r.jobs[i].id
    ensures var (after, report) := Ended(r, seen, answer, later);
            if !r.jobs[i].status.Running? then after == r && report == Threw
            else
              && |after.jobs| == |r.jobs| && (forall k :: 0 <= k < |r.jobs| && k != i ==> after.jobs[k] == r.jobs[k])
              && (answer.Ok? ==> report == Completed && after.jobs[i].status.Succeeded? && after.jobs[i].result == Some(answer.value))
              && (answer.Err? ==>
                    && report == (if seen.attempts < 5 then Retrying else GaveUp) && after.jobs[i].lastError == Some(answer.error)
                    && (after.jobs[i].status.Pending? <==> r.jobs[i].attempts < 5 && seen.attempts < 5))
  {
    assert Position(r.jobs, r.jobs[i].id, 0) == i;
  }

  // ---------- termination: five attempts a job ----------

  function Left(job: Job): nat {
    if Settled(job) then 0 else if job.attempts + 1 < MAX_ATTEMPTS then MAX_ATTEMPTS - job.attempts else 1
  }

  function Remaining(jobs: seq<Job>): nat {
    if jobs == [] then 0 else Remaining(jobs[..|jobs| - 1]) + Left(jobs[|jobs| - 1])
  }

  lemma {:induction false} RemainingAfter(jobs: seq<Job>, i: nat, job: Job)
    requires i < |jobs|
    ensures Remaining(jobs[i := job]) == Remaining(jobs) - Left(jobs[i]) + Left(job)
  {
    var last := |jobs| - 1;
    if i < last {
      RemainingAfter(jobs[..last], i, job);
      assert jobs[i := job][..last] == jobs[..last][i := job];
    } else {
      assert jobs[i := job][..last] == jobs[..last];
    }
  }

  lemma {:induction false} RemainingBounds(jobs: seq<Job>)
    ensures Remaining(jobs) <= MAX_ATTEMPTS * |jobs|
    ensures Remaining(jobs) == 0 <==> forall i :: 0 <= i < |jobs| ==> Settled(jobs[i])
  {
    if jobs != [] {
      RemainingBounds(jobs[..|jobs| - 1]);
      assert forall i :: 0 <= i < |jobs| - 1 ==> jobs[..|jobs| - 1][i] == jobs[i];
    }
  }

  datatype Call = Call(answer: Result<ProvisioningResult, string>, now: int, later: int)

  ghost predicate IsWorkerRun(states: seq<Repository>, worker: string, leaseSeconds: int, calls: seq<Call>) {
    && |states| == |calls| + 1 && ValidClaim(worker, leaseSeconds)
    && forall n :: 0 <= n < |calls| ==>
         states[n + 1] == Turn(states[n], worker, leaseSeconds, calls[n].answer, calls[n].now, calls[n].later).0
  }

  predicate Works(r: Repository, call: Call) {
    FirstClaimable(r.jobs, call.now, 0) < |r.jobs|
  }

  ghost function Working(states: seq<Repository>, calls: seq<Call>, n: nat): nat
    requires n <= |calls| < |states|
  {
    if n == 0 then 0 else Working(states, calls, n - 1) + (if Works(states[n - 1], calls[n - 1]) then 1 else 0)
  }

  ghost predicate NoneRunning(r: Repository) {
    forall i :: 0 <= i < |r.jobs| ==> !r.jobs[i].status.Running?
  }

  /** How the repository is told of the answer to a claim. */
  function Settlement(job: Job, answer: Result<ProvisioningResult, string>, later: int): Step {
    match answer
    case Ok(result) => Step.Complete(job.id, result)
    case Err(message) => Step.Fail(job.id, message, RetryAt(job.attempts, later))
  }

  /** A call that finds work is one claim and one settlement of the queue. */
  lemma TurnIsTwoSteps(r: Repository, worker: string, leaseSeconds: int, call: Call)
    requires Inv(r) && ValidClaim(worker, leaseSeconds) && Works(r, call)
    ensures var claimed := Apply(r, Step.Claim(worker, leaseSeconds, call.now));
            var job := claimed.jobs[FirstClaimable(r.jobs, call.now, 0)];
            Turn(r, worker, leaseSeconds, call.answer, call.now, call.later).0
            == Apply(claimed, Settlement(job, call.answer, call.later))
  {
    var i := FirstClaimable(r.jobs, call.now, 0);
    var claimed := ClaimAt(r, i, worker, leaseSeconds, call.now);
    assert claimed.jobs[i].environment in claimed.environments;
    assert forall k :: 0 <= k < |r.jobs| ==> claimed.jobs[k].id == r.jobs[k].id;
    assert Position(claimed.jobs, claimed.jobs[i].id, 0) == i;
  }

  lemma TurnKeepsInv(r: Repository, worker: string, leaseSeconds: int, call: Call)
    requires Inv(r) && ValidClaim(worker, leaseSeconds)
    ensures Inv(Turn(r, worker, leaseSeconds, call.answer, call.now, call.later).0)
  {
    if Works(r, call) {
      TurnIsTwoSteps(r, worker, leaseSeconds, call);
      var claimed := Apply(r, Step.Claim(worker, leaseSeconds, call.now));
      InvStep(r, Step.Claim(worker, leaseSeconds, call.now));
      InvStep(claimed, Settlement(claimed.jobs[FirstClaimable(r.jobs, call.now, 0)], call.answer, call.later));
    }
  }

  /** What a call does to the number of attempts that are left. */
  ghost predicate Progress(r: Repository, call: Call, after: Repository) {
    && Inv(after) && |after.jobs| == |r.jobs| && (NoneRunning(r) ==> NoneRunning(after))
    && Remaining(after.jobs) + (if Works(r, call) then 1 else 0) <= Remaining(r.jobs)
  }

  lemma TurnUsesAnAttempt(r: Repository, worker: string, leaseSeconds: int, call: Call)
    requires Inv(r) && ValidClaim(worker, leaseSeconds)
    ensures Progress(r, call, Turn(r, worker, leaseSeconds, call.answer, call.now, call.later).0)
  {
    var i := FirstClaimable(r.jobs, call.now, 0);
    TurnKeepsInv(r, worker, leaseSeconds, call);
    if i < |r.jobs| {
      var after := Turn(r, worker, leaseSeconds, call.answer, call.now, call.later).0;
      RunResultIsTheJobStatus(r, worker, leaseSeconds, call.answer, call.now, call.later);
      OneJobProgressed(r, call, i, after);
    }
  }

  /** One job was worked on: it is not running any more and it is settled or has one attempt fewer left. */
  lemma OneJobProgressed(r: Repository, call: Call, i: nat, after: Repository)
    requires Inv(r) && Inv(after) && |after.jobs| == |r.jobs| && i < |r.jobs| && !Settled(r.jobs[i])
    requires after.jobs[i].attempts == r.jobs[i].attempts + 1 && !after.jobs[i].status.Running?
    requires forall k :: 0 <= k < |r.jobs| && k != i ==> after.jobs[k] == r.jobs[k]
    ensures Progress(r, call, after)
  {
    assert JobOk(after.jobs[i]);
    assert after.jobs == r.jobs[i := after.jobs[i]];
    RemainingAfter(r.jobs, i, after.jobs[i]);
  }

  lemma {:induction false} ProgressAddsUp(states: seq<Repository>, calls: seq<Call>, n: nat)
    requires n <= |calls| < |states| && Inv(states[0])
    requires forall k :: 0 <= k < n && Inv(states[k]) ==> Progress(states[k], calls[k], states[k + 1])
    ensures Inv(states[n]) && |states[n].jobs| == |states[0].jobs| && (NoneRunning(states[0]) ==> NoneRunning(states[n]))
    ensures Working(states, calls, n) + Remaining(states[n].jobs) <= Remaining(states[0].jobs)
  {
    if n > 0 {
      ProgressAddsUp(states, calls, n - 1);
      assert Progress(states[n - 1], calls[n - 1], states[n]);
    }
  }

  lemma RunIsBounded(states: seq<Repository>, worker: string, leaseSeconds: int, calls: seq<Call>, n: nat)
    requires IsWorkerRun(states, worker, leaseSeconds, calls) && Inv(states[0]) && n <= |calls|
    ensures Inv(states[n]) && |states[n].jobs| == |states[0].jobs| && (NoneRunning(states[0]) ==> NoneRunning(states[n]))
    ensures Working(states, calls, n) + Remaining(states[n].jobs) <= Remaining(states[0].jobs)
  {
    forall k | 0 <= k < n && Inv(states[k]) ensures Progress(states[k], calls[k], states[k + 1]) {
      TurnUsesAnAttempt(states[k], worker, leaseSeconds, calls[k]);
    }
    ProgressAddsUp(states, calls, n);
  }

  /** However the provisioner behaves, at most five calls a job find work, and a call that finds none has nothing left to do. */
  lemma FiveCallsAJob(states: seq<Repository>, worker: string, leaseSeconds: int, calls: seq<Call>, n: nat)
    requires IsWorkerRun(states, worker, leaseSeconds, calls) && n <= |calls|
    requires Inv(states[0]) && NoneRunning(states[0])
    ensures Working(states, calls, n) <= MAX_ATTEMPTS * |states[0].jobs|
    ensures Working(states, calls, n) == MAX_ATTEMPTS * |states[0].jobs|
            || (n < |calls| && !Works(states[n], calls[n])) ==>
              forall i :: 0 <= i < |states[n].jobs| ==> Settled(states[n].jobs[i])
  {
    RunIsBounded(states, worker, leaseSeconds, calls, n);
    RemainingBounds(states[0].jobs);
    RemainingBounds(states[n].jobs);
  }

  // ---------- the objects ----------

  class MemoryCloudRepository {
    var jobs: seq<Job>
    var environments: map<string, Environment>

    ghost function View(): Repository
      reads this
    {
      Repository(jobs, environments)
    }

    constructor ()
      ensures View() == Repository([], map[]) && Inv(View())
    {
      jobs, environments := [], map[];
    }

    method CreateEnvironment(id: string, project: string, slug: string, now: int) returns (created: bool)
      modifies this
      ensures created == Create(old(View()), id, project, slug, now).Some?
      ensures View() == if created then Create(old(View()), id, project, slug, now).value else old(View())
    {
      created := id !in environments;
      var rest := environments.Keys;
      while created && rest != {}
        invariant rest <= environments.Keys && View() == old(View())
        invariant created ==> id !in environments
        invariant created ==> forall other :: other in environments && other !in rest ==>
                    !(environments[other].project == project && environments[other].slug == slug)
        invariant !created ==> Create(View(), id, project, slug, now).None?
        decreases rest
      {
        var other :| other in rest;
        created := environments[other].project != project || environments[other].slug != slug;
        rest := rest - {other};
      }
      if created {
        environments := environments[id := Environment(id, project, slug, AwaitingJob, None, None, None)];
        jobs := jobs + [Job(JobId(id), id, Pending, 0, now, None, None, None, None)];
      }
    }

    method ClaimProvisioningJob(worker: string, leaseSeconds: int, now: int) returns (r: Result<Option<Job>, string>)
      modifies this
      ensures r.Err? <==> !ValidClaim(worker, leaseSeconds)
      ensures View() == Apply(old(View()), Step.Claim(worker, leaseSeconds, now))
      ensures r.Ok? ==> var i := FirstClaimable(old(jobs), now, 0);
                        r.value == if i == |old(jobs)| then None else Some(jobs[i])
    {
      if Trim(worker) == "" || leaseSeconds < 5 {
        return Err("Provisioning worker id and a lease of at least 5 seconds are required");
      }
      var i := 0;
      while i < |jobs| && !Claimable(jobs[i], now)
        invariant i <= |jobs| && FirstClaimable(jobs, now, 0) == FirstClaimable(jobs, now, i)
      {
        i := i + 1;
      }
      if i == |jobs| {
        return Ok(None);
      }
      var job := jobs[i];
      job := job.(status := Running, attempts := job.attempts + 1);
      job := job.(claimedBy := Some(worker), claimedUntil := Some(now + leaseSeconds * 1_000));
      jobs := jobs[i := job];
      if job.environment in environments {
        var e := environments[job.environment];
        environments := environments[job.environment := e.(status := Provisioning, statusMessage := None)];
      }
      return Ok(Some(job));
    }

    method Find(id: string) returns (i: nat)
      ensures i == Position(jobs, id, 0)
    {
      i := 0;
      while i < |jobs| && jobs[i].id != id
        invariant i <= |jobs| && Position(jobs, id, 0) == Position(jobs, id, i)
      {
        i := i + 1;
      }
    }

    /** Completion is not fenced by the claim: any worker may settle a running job. */
    method CompleteProvisioningJob(id: string, result: ProvisioningResult) returns (ok: bool)
      modifies this
      ensures View() == Apply(old(View()), Step.Complete(id, result))
      ensures ok <==> old(IsRunning(View(), id)) && old(jobs[Position(jobs, id, 0)].environment) in old(environments)
    {
      var i := Find(id);
      if i == |jobs| || !jobs[i].status.Running? {
        return false;
      }
      var job := jobs[i].(status := Succeeded, result := Some(result));
      jobs := jobs[i := job.(claimedBy := None, claimedUntil := None, lastError := None)];
      if job.environment !in environments {
        return false;
      }
      var e := environments[job.environment].(status := Ready, apiUrl := Some(result.apiUrl));
      if GivesAdminUrl(result) {
        e := e.(adminUrl := result.adminUrl);
      }
      environments := environments[job.environment := e.(statusMessage := None)];
      return true;
    }

    method FailProvisioningJob(id: string, message: string, retryAt: Option<int>) returns (ok: bool)
      modifies this
      ensures View() == Apply(old(View()), Step.Fail(id, message, retryAt))
      ensures ok == old(IsRunning(View(), id))
    {
      var i := Find(id);
      if i == |jobs| || !jobs[i].status.Running? {
        return false;
      }
      var job := jobs[i];
      var exhausted := job.attempts >= MAX_ATTEMPTS || retryAt.None?;
      job := job.(status := if exhausted then Failed else Pending, lastError := Some(message));
      if retryAt.Some? {
        job := job.(availableAt := retryAt.value);
      }
      jobs := jobs[i := job.(claimedBy := None, claimedUntil := None)];
      if job.environment in environments {
        var e := environments[job.environment];
        environments := environments[job.environment :=
          e.(status := if exhausted then ProvisioningFailed else AwaitingJob, statusMessage := Some(message))];
      }
      return true;
    }
  }

  class CloudProvisioningWorker {
    const repository: MemoryCloudRepository
    const worker: string
    const leaseSeconds: int
    var running: bool
    // The job that a call waits with while the provisioner works on it.
    var claimed: Option<Job>

    predicate Valid()
      reads this
    {
      running == claimed.Some?
    }

    constructor (repository: MemoryCloudRepository, worker: string, leaseSeconds: int)
      ensures this.repository == repository && this.worker == worker && this.leaseSeconds == leaseSeconds && Valid() && !running
    {
      this.repository, this.worker, this.leaseSeconds := repository, worker, leaseSeconds;
      this.running, this.claimed := false, None;
    }

    ghost predicate DistinctJobs()
      reads this, repository
    {
      forall i, j :: 0 <= i < j < |repository.jobs| ==> repository.jobs[i].id != repository.jobs[j].id
    }

    /** A call up to the provisioner.  While another call waits for it, a call is idle and changes nothing. */
    method Begin(now: int) returns (result: Option<RunResult>)
      requires Valid() && DistinctJobs()
      modifies this, repository
      ensures Valid()
      ensures old(running) ==> result == Some(Idle) && running && claimed == old(claimed) && repository.View() == old(repository.View())
      ensures !old(running) ==> (repository.View(), result, claimed) == Begun(old(repository.View()), worker, leaseSeconds, now)
    {
      if running {
        return Some(Idle);
      }
      running := true;
      result := None;
      var claim := repository.ClaimProvisioningJob(worker, leaseSeconds, now);
      match claim {
        case Err(_) => result := Some(Threw);
        case Ok(None) => result := Some(Idle);
        case Ok(Some(job)) =>
          ghost var i := FirstClaimable(old(repository.jobs), now, 0);
          assert Position(repository.jobs, job.id, 0) == i;
          if job.environment in repository.environments {
            claimed := Some(job);
          } else {
            var _ := repository.FailProvisioningJob(job.id, NOT_FOUND, None);
            result := Some(GaveUp);
          }
      }
      running := claimed.Some?;
    }

    /** The rest of the call, on the repository as the other workers have left it. */
    method Resume(answer: Result<ProvisioningResult, string>, later: int) returns (result: RunResult)
      requires Valid() && running
      modifies this, repository
      ensures Valid() && !running
      ensures (repository.View(), result) == Ended(old(repository.View()), old(claimed).value, answer, later)
    {
      var job := claimed.value;
      match answer {
        case Ok(provisioned) =>
          var completed := repository.CompleteProvisioningJob(job.id, provisioned);
          result := Completed;
          if !completed {
            ghost var settled := repository.View();
            var failed := repository.FailProvisioningJob(job.id, "Provisioning failed", RetryAt(job.attempts, later));
            CompletedRunsNoMore(old(repository.View()), job.id, provisioned);
            assert !failed && repository.View() == settled;
            result := Threw;
          }
        case Err(message) =>
          var exhausted := job.attempts >= MAX_ATTEMPTS;
          var retryAt := if exhausted then None else Some(later + Backoff(job.attempts));
          var failed := repository.FailProvisioningJob(job.id, message, retryAt);
          result := if !failed then Threw else if exhausted then GaveUp else Retrying;
      }
      running, claimed := false, None;
    }

    /** A whole call that nothing interrupts. */
    method RunOnce(answer: Result<ProvisioningResult, string>, now: int, later: int) returns (result: RunResult)
      requires Valid() && DistinctJobs()
      modifies this, repository
      ensures Valid() && running == old(running)
      ensures old(running) ==> result.Idle? && repository.View() == old(repository.View())
      ensures !old(running) ==>
                (repository.View(), result) == Turn(old(repository.View()), worker, leaseSeconds, answer, now, later)
    {
      ghost var i := FirstClaimable(repository.jobs, now, 0);
      var early := Begin(now);
      if early.Some? {
        return early.value;
      }
      assert repository.jobs[i] == claimed.value && Position(repository.jobs, claimed.value.id, 0) == i;
      result := Resume(answer, later);
    }
  }
}
