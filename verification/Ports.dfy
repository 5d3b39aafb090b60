/** Ports of local runtimes: the registry, and the environments that start and run on what it hands out. */
module PortRegistry {
  import opened Prelude
  import opened Sets

  type Digest = string -> nat

  /** The configuration of a provisioner; its constructor refuses an empty range. */
  datatype Range = Range(base: int, size: int) {
    predicate Valid() {
      size >= 1
    }

    predicate Holds(port: int) {
      base <= port < base + size
    }
  }

  function PreferredPort(range: Range, environment: string, digest: Digest): (port: int)
    requires range.Valid()
    ensures range.Holds(port)
  {
    range.base + digest(environment) % range.size
  }

  /** A preferred port outside the range, or zero, is no preference; then come the derived port and the whole range. */
  function Candidates(range: Range, environment: string, preferred: Option<int>, digest: Digest): (ports: seq<int>)
    requires range.Valid()
    ensures forall port :: port in ports <==> range.Holds(port)
    ensures preferred.Some? && preferred.value != 0 && range.Holds(preferred.value) ==> ports[0] == preferred.value
  {
    var whole := seq(range.size, i requires 0 <= i < range.size => range.base + i);
    assert forall port :: range.Holds(port) ==> whole[port - range.base] == port;
    (if preferred.Some? && preferred.value != 0 && range.Holds(preferred.value) then [preferred.value] else [])
    + [PreferredPort(range, environment, digest)] + whole
  }

  function Used(assignments: map<string, int>, running: map<string, int>): set<int> {
    assignments.Values + running.Values
  }

  predicate Admissible(assignments: map<string, int>, running: map<string, int>, environment: string, port: int) {
    (environment in assignments && assignments[environment] == port) || port !in Used(assignments, running)
  }

  /** The position of the first admissible candidate, or the number of candidates. */
  function FirstAdmissible(ports: seq<int>, assignments: map<string, int>, running: map<string, int>, environment: string, from: nat)
    : (i: nat)
    requires from <= |ports|
    ensures from <= i <= |ports| && (i < |ports| ==> Admissible(assignments, running, environment, ports[i]))
    ensures forall k :: from <= k < i ==> !Admissible(assignments, running, environment, ports[k])
    decreases |ports| - from
  {
    if from == |ports| || Admissible(assignments, running, environment, ports[from]) then from
    else FirstAdmissible(ports, assignments, running, environment, from + 1)
  }

  function Allocate(range: Range, assignments: map<string, int>, running: map<string, int>, environment: string,
                    preferred: Option<int>, digest: Digest): Option<int>
    requires range.Valid()
  {
    var ports := Candidates(range, environment, preferred, digest);
    var i := FirstAdmissible(ports, assignments, running, environment, 0);
    if i == |ports| then None else Some(ports[i])
  }

  class LocalDataPlaneProvisioner {
    const range: Range
    const digest: Digest
    var portAssignments: map<string, int>
    var running: map<string, int>

    constructor (range: Range, digest: Digest)
      requires range.Valid()
      ensures this.range == range && this.digest == digest && portAssignments == map[] && running == map[]
    {
      this.range, this.digest, portAssignments, running := range, digest, map[], map[];
    }

    /** No result stands for the error that no free port remains. */
    method AllocatePort(environment: string, preferred: Option<int>) returns (port: Option<int>)
      requires range.Valid()
      modifies this
      ensures port == Allocate(range, old(portAssignments), running, environment, preferred, digest)
      ensures portAssignments == if port.Some? then old(portAssignments)[environment := port.value] else old(portAssignments)
      ensures running == old(running)
    {
      var used: set<int> := portAssignments.Values;
      var rest := running.Keys;
      while rest != {}
        invariant rest <= running.Keys && portAssignments == old(portAssignments) && running == old(running)
        invariant forall p :: p in used <==> p in portAssignments.Values || exists e :: e in running && e !in rest && running[e] == p
        decreases rest
      {
        var e :| e in rest;
        used := used + {running[e]};
        rest := rest - {e};
      }
      var candidates := Candidates(range, environment, preferred, digest);
      var i := 0;
      while i < |candidates|
        invariant i <= |candidates| && portAssignments == old(portAssignments) && running == old(running)
        invariant FirstAdmissible(candidates, portAssignments, running, environment, 0)
                  == FirstAdmissible(candidates, portAssignments, running, environment, i)
      {
        var candidate := candidates[i];
        assert candidate in used <==> candidate in Used(portAssignments, running);
        if (environment in portAssignments && portAssignments[environment] == candidate) || candidate !in used {
          portAssignments := portAssignments[environment := candidate];
          return Some(candidate);
        }
        i := i + 1;
      }
      return None;
    }
  }

  // ---------- one allocation ----------

  /** Ports that other environments are registered with or run on. */
  function TakenByOthers(assignments: map<string, int>, running: map<string, int>, environment: string): set<int> {
    (set e | e in assignments && e != environment :: assignments[e]) + (set e | e in running && e != environment :: running[e])
  }

  /** The registry and the running set agree: one port for each environment, and one environment for each port. */
  ghost predicate Agree(assignments: map<string, int>, running: map<string, int>) {
    && (forall e, f :: e in assignments && f in assignments && assignments[e] == assignments[f] ==> e == f)
    && forall e :: e in running ==> e in assignments && assignments[e] == running[e]
  }

  /** Where the registry agrees with the running set, an allocation lies in the range, is nobody else's, and keeps the agreement. */
  lemma AllocationIsExclusive(range: Range, assignments: map<string, int>, running: map<string, int>, environment: string,
                              preferred: Option<int>, digest: Digest)
    requires range.Valid() && Agree(assignments, running) && environment !in running
    requires Allocate(range, assignments, running, environment, preferred, digest).Some?
    ensures var port := Allocate(range, assignments, running, environment, preferred, digest).value;
            && range.Holds(port) && port !in TakenByOthers(assignments, running, environment)
            && Agree(assignments[environment := port], running)
  {
    var ports := Candidates(range, environment, preferred, digest);
    var port := Allocate(range, assignments, running, environment, preferred, digest).value;
    assert port in ports;
    assert Admissible(assignments, running, environment, port);
    forall e | e in assignments && e != environment ensures assignments[e] != port {
      assert assignments[e] in Used(assignments, running);
    }
  }

  /**
   Which port is given: the preferred one when it lies in the range, is not zero and nobody has it,
   else the one derived from the environment's id, else the lowest that nobody else has.
   */
  lemma AllocationOrder(range: Range, assignments: map<string, int>, running: map<string, int>, environment: string,
                        preferred: Option<int>, digest: Digest)
    requires range.Valid() && Agree(assignments, running) && environment !in running
    ensures var (given, taken) := (Allocate(range, assignments, running, environment, preferred, digest),
                                   TakenByOthers(assignments, running, environment));
            var derived := range.base + digest(environment) % range.size;
            if preferred.Some? && preferred.value != 0 && range.base <= preferred.value < range.base + range.size
               && preferred.value !in taken then given == preferred
            else if derived !in taken then given == Some(derived)
            else given.Some? ==> given.value !in taken && forall port :: range.base <= port < given.value ==> port in taken
  {
    var ports := Candidates(range, environment, preferred, digest);
    CandidatesInOrder(range, environment, preferred, digest);
    var i := FirstAdmissible(ports, assignments, running, environment, 0);
    forall k | 0 <= k < |ports| && k <= i ensures k < i <==> ports[k] in TakenByOthers(assignments, running, environment) {
      OthersPortsAreRefused(assignments, running, environment, ports[k]);
    }
    var first := |ports| - range.size;
    if first <= i < |ports| {
      forall port | range.base <= port < ports[i] ensures port in TakenByOthers(assignments, running, environment) {
        assert ports[first + (port - range.base)] == port;
      }
    }
  }

  lemma OthersPortsAreRefused(assignments: map<string, int>, running: map<string, int>, environment: string, port: int)
    requires Agree(assignments, running) && environment !in running
    ensures port in TakenByOthers(assignments, running, environment) <==> !Admissible(assignments, running, environment, port)
  {
    if port in TakenByOthers(assignments, running, environment) {
      assert port in Used(assignments, running);
    }
  }

  lemma CandidatesInOrder(range: Range, environment: string, preferred: Option<int>, digest: Digest)
    requires range.Valid()
    ensures var ports := Candidates(range, environment, preferred, digest);
            var first := |ports| - range.size;
            && ports[first - 1] == range.base + digest(environment) % range.size
            && (forall k :: first <= k < |ports| ==> ports[k] == range.base + (k - first))
            && if preferred.Some? && preferred.value != 0 && range.base <= preferred.value < range.base + range.size
               then first == 2 && ports[0] == preferred.value else first == 1
  {
  }

  /** An environment that passes the port it is registered with keeps it, whatever else is in use. */
  lemma RegisteredPortIsKept(range: Range, assignments: map<string, int>, running: map<string, int>, environment: string, digest: Digest)
    requires range.Valid() && environment in assignments && range.Holds(assignments[environment]) && assignments[environment] != 0
    ensures Allocate(range, assignments, running, environment, Some(assignments[environment]), digest) == Some(assignments[environment])
  {
    var ports := Candidates(range, environment, Some(assignments[environment]), digest);
    assert Admissible(assignments, running, environment, ports[0]);
  }

  /** Allocation fails exactly when every port of the range is taken by another environment. */
  lemma FailsExactly(range: Range, assignments: map<string, int>, running: map<string, int>, environment: string,
                     preferred: Option<int>, digest: Digest)
    requires range.Valid() && Agree(assignments, running) && environment !in running
    ensures Allocate(range, assignments, running, environment, preferred, digest).None?
            <==> forall port :: range.Holds(port) ==> port in TakenByOthers(assignments, running, environment)
  {
    var ports := Candidates(range, environment, preferred, digest);
    forall port | range.Holds(port)
      ensures port in TakenByOthers(assignments, running, environment) <==> !Admissible(assignments, running, environment, port)
    {
      OthersPortsAreRefused(assignments, running, environment, port);
    }
    var i := FirstAdmissible(ports, assignments, running, environment, 0);
    if i < |ports| {
      assert ports[i] in ports;
    } else {
      forall port | range.Holds(port) ensures !Admissible(assignments, running, environment, port) {
        assert port in ports;
        var k :| 0 <= k < |ports| && ports[k] == port;
      }
    }
  }

  function PortsFrom(base: int, size: nat): (ports: set<int>)
    ensures |ports| == size
    ensures forall port :: port in ports <==> base <= port < base + size
  {
    if size == 0 then {} else PortsFrom(base, size - 1) + {base + size - 1}
  }

  lemma {:induction false} ImageSize(m: map<string, int>, keys: set<string>)
    requires keys <= m.Keys
    ensures |set e | e in keys :: m[e]| <= |keys|
  {
    var image := set e | e in keys :: m[e];
    if keys == {} {
      assert image == {};
    } else {
      var e :| e in keys;
      ImageSize(m, keys - {e});
      var rest := set f | f in keys - {e} :: m[f];
      assert image == rest + {m[e]};
      assert m[e] in rest ==> image == rest;
    }
  }

  lemma TakenAreRegistered(assignments: map<string, int>, running: map<string, int>, environment: string, others: set<string>)
    requires Agree(assignments, running) && others == assignments.Keys - {environment}
    ensures TakenByOthers(assignments, running, environment) == set e | e in others :: assignments[e]
  {
    var registered := set e | e in others :: assignments[e];
    forall port | port in TakenByOthers(assignments, running, environment) ensures port in registered {
      var e :| e != environment && ((e in assignments && assignments[e] == port) || (e in running && running[e] == port));
      assert e in others && assignments[e] == port;
    }
    forall port | port in registered ensures port in TakenByOthers(assignments, running, environment) {
      var e :| e in others && assignments[e] == port;
      assert e in assignments && e != environment;
    }
  }

  /** Pigeonhole: while fewer other environments are registered than the range has ports, allocation succeeds. */
  lemma RoomForAnother(range: Range, assignments: map<string, int>, running: map<string, int>, environment: string,
                       preferred: Option<int>, digest: Digest)
    requires range.Valid() && Agree(assignments, running) && environment !in running
    requires |assignments.Keys - {environment}| < range.size
    ensures Allocate(range, assignments, running, environment, preferred, digest).Some?
  {
    FailsExactly(range, assignments, running, environment, preferred, digest);
    var (taken, others) := (TakenByOthers(assignments, running, environment), assignments.Keys - {environment});
    TakenAreRegistered(assignments, running, environment, others);
    ImageSize(assignments, others);
    var whole := PortsFrom(range.base, range.size);
    if whole <= taken {
      SubsetSize(whole, taken);
    }
    var free :| free in whole && free !in taken;
    assert range.Holds(free);
  }

  // ---------- starts, stops and reloads of the registry ----------

  /** `starting` holds environments whose server is on its way up; `file` is what the registry was last saved as. */
  datatype State = State(assignments: map<string, int>, starting: map<string, int>, running: map<string, int>, file: map<string, int>)

  datatype Step =
    | Load
    | Start(environment: string, preferred: Option<int>)
    | Finish(started: string)
    | Abort(failed: string)
    | Stop(stopped: string)

  predicate Enabled(s: State, step: Step) {
    match step
    case Load => true
    case Start(e, _) => e !in s.starting && e !in s.running
    case Finish(e) => e in s.starting
    case Abort(e) => e in s.starting
    case Stop(e) => e in s.running
  }

  /** A start that finds no port leaves the state alone; one that fails later keeps its registration. */
  function Apply(s: State, step: Step, range: Range, digest: Digest): State
    requires range.Valid() && Enabled(s, step)
  {
    match step
    case Load => s.(assignments := s.file)
    case Start(e, preferred) =>
      (match Allocate(range, s.assignments, s.running, e, preferred, digest)
       case None => s
       case Some(port) => s.(assignments := s.assignments[e := port], starting := s.starting[e := port]))
    case Finish(e) => State(s.assignments, s.starting - {e}, s.running[e := s.starting[e]], s.assignments)
    case Abort(e) => s.(starting := s.starting - {e})
    case Stop(e) => s.(running := s.running - {e})
  }

  ghost predicate IsRun(states: seq<State>, steps: seq<Step>, range: Range, digest: Digest) {
    && range.Valid() && |states| == |steps| + 1
    && states[0].assignments == map[] && states[0].starting == map[] && states[0].running == map[]
    && Agree(states[0].file, map[])
    && forall n :: 0 <= n < |steps| ==> Enabled(states[n], steps[n]) && states[n + 1] == Apply(states[n], steps[n], range, digest)
  }

  ghost predicate Inv(s: State, range: Range) {
    && Agree(s.assignments, s.running) && Agree(s.file, s.running)
    && forall e :: e in s.starting ==> e in s.assignments && s.assignments[e] == s.starting[e] && range.Holds(s.starting[e])
  }

  /** The saved registry does not know the port that a start was given. */
  predicate Forgotten(s: State, e: string) {
    e in s.starting && !(e in s.file && s.file[e] == s.starting[e])
  }

  /** The registry is not reloaded while a port it handed out is not saved yet. */
  predicate Calm(s: State, step: Step) {
    step.Load? ==> forall e :: e in s.starting ==> !Forgotten(s, e)
  }

  /** A step keeps the registry, its file and the environments in agreement if and only if it is no reload that forgets a start. */
  lemma StepKeepsInvExactly(s: State, step: Step, range: Range, digest: Digest)
    requires range.Valid() && Inv(s, range) && Enabled(s, step)
    ensures Inv(Apply(s, step, range, digest), range) <==> Calm(s, step)
  {
    if step.Start? {
      StartKeepsInv(s, step, range, digest);
    }
  }

  lemma StartKeepsInv(s: State, step: Step, range: Range, digest: Digest)
    requires range.Valid() && Inv(s, range) && Enabled(s, step) && step.Start?
    ensures Inv(Apply(s, step, range, digest), range)
  {
    if Allocate(range, s.assignments, s.running, step.environment, step.preferred, digest).Some? {
      AllocationIsExclusive(range, s.assignments, s.running, step.environment, step.preferred, digest);
    }
  }

  lemma {:induction false} AgreesSoFar(states: seq<State>, steps: seq<Step>, range: Range, digest: Digest, n: nat)
    requires IsRun(states, steps, range, digest) && n < |states| && forall k :: 0 <= k < n ==> Calm(states[k], steps[k])
    ensures Inv(states[n], range)
  {
    if n > 0 {
      AgreesSoFar(states, steps, range, digest, n - 1);
      StepKeepsInvExactly(states[n - 1], steps[n - 1], range, digest);
    }
  }

  /** In every run, the agreement holds throughout if and only if no reload forgets a start. */
  lemma AgreesExactly(states: seq<State>, steps: seq<Step>, range: Range, digest: Digest)
    requires IsRun(states, steps, range, digest)
    ensures (forall n :: 0 <= n < |states| ==> Inv(states[n], range)) <==> (forall n :: 0 <= n < |steps| ==> Calm(states[n], steps[n]))
  {
    if forall n :: 0 <= n < |steps| ==> Calm(states[n], steps[n]) {
      forall n | 0 <= n < |states| ensures Inv(states[n], range) {
        AgreesSoFar(states, steps, range, digest, n);
      }
    }
    if forall n :: 0 <= n < |states| ==> Inv(states[n], range) {
      forall n | 0 <= n < |steps| ensures Calm(states[n], steps[n]) {
        assert Inv(states[n], range) && Inv(states[n + 1], range);
        StepKeepsInvExactly(states[n], steps[n], range, digest);
      }
    }
  }

  function PortOf(s: State, environment: string): Option<int> {
    if environment in s.running then Some(s.running[environment])
    else if environment in s.starting then Some(s.starting[environment])
    else None
  }

  /** Until a reload forgets a start, no two environments that start or run share a port. */
  lemma NoSharedPorts(states: seq<State>, steps: seq<Step>, range: Range, digest: Digest, n: nat, e: string, f: string)
    requires IsRun(states, steps, range, digest) && n < |states| && forall k :: 0 <= k < n ==> Calm(states[k], steps[k])
    requires e != f && PortOf(states[n], e).Some? && PortOf(states[n], f).Some?
    ensures PortOf(states[n], e) != PortOf(states[n], f)
  {
    AgreesSoFar(states, steps, range, digest, n);
  }

  /** Every change of an environment is its own, and it keeps its registration when it stops or fails to come up. */
  lemma EnvironmentsMove(s: State, step: Step, range: Range, digest: Digest)
    requires range.Valid() && Enabled(s, step)
    ensures var after := Apply(s, step, range, digest);
            match step
            case Load => after.assignments == s.file && after.starting == s.starting && after.running == s.running && after.file == s.file
            case Start(e, preferred) =>
              && after.running == s.running && after.file == s.file
              && (match Allocate(range, s.assignments, s.running, e, preferred, digest)
                  case None => after == s
                  case Some(port) => after.starting == s.starting[e := port] && after.assignments == s.assignments[e := port])
            case Finish(e) =>
              && e !in after.starting && after.running == s.running[e := s.starting[e]]
              && after.assignments == s.assignments && after.file == s.assignments
            case Abort(e) =>
              && e !in after.starting && after.running == s.running && after.assignments == s.assignments && after.file == s.file
              && forall f :: f != e ==> PortOf(after, f) == PortOf(s, f)
            case Stop(e) =>
              && e !in after.running && after.starting == s.starting && after.assignments == s.assignments && after.file == s.file
              && forall f :: f != e ==> PortOf(after, f) == PortOf(s, f)
  {
  }

  predicate Registered(s: State, e: string, port: int) {
    e in s.assignments && s.assignments[e] == port && e in s.file && s.file[e] == port
  }

  lemma RegistrationsStay(s: State, step: Step, range: Range, digest: Digest, e: string, port: int)
    requires range.Valid() && Enabled(s, step) && Registered(s, e, port) && !(step.Start? && step.environment == e)
    ensures Registered(Apply(s, step, range, digest), e, port)
  {
  }

  /**
   In every run, reloads at any time included, an environment that has come up keeps its port in the
   registry and its file until it starts again, and starts again on that port if it asks for it.
   */
  lemma {:induction false} FinishedPortsAreKept(states: seq<State>, steps: seq<Step>, range: Range, digest: Digest, k: nat, n: nat, e: string)
    requires IsRun(states, steps, range, digest) && k < n < |states| && steps[k] == Finish(e)
    requires forall j :: k < j < n ==> !(steps[j].Start? && steps[j].environment == e)
    requires e in states[k].assignments && states[k].assignments[e] == states[k].starting[e]
    ensures Registered(states[n], e, states[k].starting[e])
    ensures range.Holds(states[k].starting[e]) && states[k].starting[e] != 0 ==>
              Allocate(range, states[n].assignments, states[n].running, e, Some(states[k].starting[e]), digest)
              == Some(states[k].starting[e])
  {
    if k + 1 < n {
      FinishedPortsAreKept(states, steps, range, digest, k, n - 1, e);
      RegistrationsStay(states[n - 1], steps[n - 1], range, digest, e, states[k].starting[e]);
    }
    if range.Holds(states[k].starting[e]) && states[k].starting[e] != 0 {
      RegisteredPortIsKept(range, states[n].assignments, states[n].running, e, digest);
    }
  }

  // ---------- what a reload that forgets a start leads to ----------

  /** The next start after a reload is given this port. */
  predicate GivenAfterReload(s: State, range: Range, digest: Digest, f: string, preferred: Option<int>, port: int)
    requires range.Valid()
  {
    Allocate(range, s.file, s.running, f, preferred, digest) == Some(port)
  }

  /** A port given after a reload is in use if and only if it is the port of a start that the reload forgot: never that of a running one. */
  lemma GivenInUseExactly(s: State, range: Range, digest: Digest, f: string, preferred: Option<int>, port: int)
    requires range.Valid() && Inv(s, range) && Enabled(s, Start(f, preferred)) && GivenAfterReload(s, range, digest, f, preferred, port)
    ensures (exists e :: e != f && PortOf(s, e) == Some(port)) <==> (exists e :: Forgotten(s, e) && s.starting[e] == port)
  {
    AllocationIsExclusive(range, s.file, s.running, f, preferred, digest);
    assert forall e :: e in s.running && e != f ==> s.running[e] in TakenByOthers(s.file, s.running, f);
    assert forall e :: e in s.file && e != f ==> s.file[e] in TakenByOthers(s.file, s.running, f);
    if e :| e != f && PortOf(s, e) == Some(port) {
      assert Forgotten(s, e);
    }
    if e :| Forgotten(s, e) && s.starting[e] == port {
      assert PortOf(s, e) == Some(port);
    }
  }

  /**
   After a reload, some start of an environment is given a port in use if and only if the reload
   forgot a start whose port the saved registry leaves to that environment.  Port 0 asks for any
   port and is never in use.
   */
  lemma HarmfulReloadsExactly(s: State, range: Range, digest: Digest, f: string)
    requires range.Valid() && Inv(s, range) && f !in s.starting && f !in s.running
    ensures (exists preferred, port :: port != 0 && GivenAfterReload(s, range, digest, f, preferred, port)
                                       && exists e :: e != f && PortOf(s, e) == Some(port))
            <==> (exists e :: Forgotten(s, e) && s.starting[e] != 0 && Admissible(s.file, s.running, f, s.starting[e]))
  {
    if preferred, port :| && port != 0 && GivenAfterReload(s, range, digest, f, preferred, port)
                          && exists e :: e != f && PortOf(s, e) == Some(port) {
      GivenInUseExactly(s, range, digest, f, preferred, port);
      assert Admissible(s.file, s.running, f, port);
    }
    if e :| Forgotten(s, e) && s.starting[e] != 0 && Admissible(s.file, s.running, f, s.starting[e]) {
      var port := s.starting[e];
      var ports := Candidates(range, f, Some(port), digest);
      assert Admissible(s.file, s.running, f, ports[0]);
      assert GivenAfterReload(s, range, digest, f, Some(port), port);
      GivenInUseExactly(s, range, digest, f, Some(port), port);
    }
  }

  /** The shortest way there: one start, a reload, and another start that prefers the same port. */
  lemma ReloadCrossesAStart(s: State, range: Range, digest: Digest, e: string, f: string)
    requires range.Valid() && e != f && s == State(map[], map[], map[], map[]) && PreferredPort(range, e, digest) != 0
    ensures var port := PreferredPort(range, e, digest);
            var s1 := Apply(s, Start(e, None), range, digest);
            && Forgotten(s1, e) && !Calm(s1, Load)
            && var s2 := Apply(s1, Load, range, digest);
               var s3 := Apply(s2, Start(f, Some(port)), range, digest);
               PortOf(s3, e) == PortOf(s3, f) == Some(port)
  {
    var port := PreferredPort(range, e, digest);
    var first := Candidates(range, e, None, digest);
    assert first[0] == port && Admissible(map[], map[], e, first[0]);
    var s1 := Apply(s, Start(e, None), range, digest);
    assert s1.starting == map[e := port];
    var second := Candidates(range, f, Some(port), digest);
    assert Admissible(map[], map[], f, second[0]);
  }
}
