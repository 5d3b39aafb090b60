/** Planning a member import: rows are validated, and no two may share an external id, an identity or a member id. */
module MemberImportPlanning {
  import opened Prelude
  import opened Text

  /** A row as text; `balance` is the number the cell stands for, when that is a safe integer. */
  datatype Row =
    | NotAnObject
    | Row(externalId: Option<string>, identityType: Option<string>, identityValue: Option<string>, memberId: Option<string>,
          balance: Option<int>, unit: Option<string>)

  datatype RowError = WrongShape | NoExternalId | NoIdentity | EmptyMemberId | BadIdentityType | BadBalance | NegativeBalance | BadUnit

  datatype IdentityKind = Token | Email | Phone | External

  function KindText(kind: IdentityKind): string {
    match kind
    case Token => "token"
    case Email => "email"
    case Phone => "phone"
    case External => "external"
  }

  function KindOf(text: string): Option<IdentityKind> {
    if text == "token" then Some(Token)
    else if text == "email" then Some(Email)
    else if text == "phone" then Some(Phone)
    else if text == "external" then Some(External)
    else None
  }

  datatype Identity = Identity(kind: IdentityKind, value: string)

  datatype Source = Source(externalId: string, identity: Identity, memberId: Option<string>, balance: nat, unit: Option<string>)

  datatype OpeningBalance = OpeningBalance(adjustmentId: string, unit: Option<string>, amount: nat)

  datatype Entry = Entry(externalId: string, memberId: string, identity: Identity, opening: Option<OpeningBalance>, expected: nat)

  datatype PlanError = NoProgram | NoRows | BadRow(row: nat, why: RowError)
    | DuplicateExternalId(id: string) | DuplicateIdentity(identity: Identity) | DuplicateMemberId(id: string)

  datatype Contents = Contents(createdAt: string, program: string, entries: seq<Entry>, members: nat, nonzeroBalances: nat,
                               netOpeningBalance: nat)

  datatype Plan = Plan(contents: Contents, checksum: string)

  const UNITS: set<string> := {"points", "visits", "stamps", "credits", "custom"}

  function Trimmed(cell: Option<string>, otherwise: string): string {
    if cell.Some? then Trim(cell.value) else Trim(otherwise)
  }

  function SourceMember(row: Row): Result<Source, RowError> {
    if row.NotAnObject? then Err(WrongShape)
    else
      var externalId := Trimmed(row.externalId, "");
      var identityValue := Trimmed(row.identityValue, "");
      var memberId := if row.memberId.Some? then Some(Trim(row.memberId.value)) else None;
      var kind := KindOf(Trimmed(row.identityType, "external"));
      var unit := if row.unit.Some? && Trim(row.unit.value) != "" then Some(Trim(row.unit.value)) else None;
      if externalId == "" then Err(NoExternalId)
      else if identityValue == "" then Err(NoIdentity)
      else if memberId == Some("") then Err(EmptyMemberId)
      else if kind.None? then Err(BadIdentityType)
      else if row.balance.None? then Err(BadBalance)
      else if row.balance.value < 0 then Err(NegativeBalance)
      else if unit.Some? && unit.value !in UNITS then Err(BadUnit)
      else Ok(Source(externalId, Identity(kind.value, identityValue), memberId, row.balance.value, unit))
  }

  /** Identifiers derived by hashing: a parameter, of which nothing is assumed here. */
  type Hash = (string, string) -> string

  /** The SHA-256 of what a plan prints as, without its checksum; another parameter. */
  type Digest = Contents -> string

  function Signed(contents: Contents, digest: Digest): Plan {
    Plan(contents, digest(contents))
  }

  /** A plan file is taken only when its checksum matches what it holds. */
  predicate Intact(plan: Plan, digest: Digest) {
    plan.checksum == digest(plan.contents)
  }

  function EntryOf(program: string, source: Source, stableId: Hash): Entry {
    Entry(source.externalId, MemberIdOf(source, stableId), source.identity,
          if source.balance == 0 then None
          else Some(OpeningBalance(stableId("migration", program + ":" + source.externalId), source.unit, source.balance)),
          source.balance)
  }

  function Validated(rows: seq<Row>): (r: seq<Result<Source, RowError>>) {
    seq(|rows|, i requires 0 <= i < |rows| => SourceMember(rows[i]))
  }

  /** The sources, or the first row that is refused. */
  function Collected(results: seq<Result<Source, RowError>>): (r: Result<seq<Source>, PlanError>)
    ensures r.Ok? <==> forall i :: 0 <= i < |results| ==> results[i].Ok?
    ensures r.Ok? ==> |r.value| == |results| && forall i :: 0 <= i < |results| ==> results[i] == Ok(r.value[i])
    ensures r.Err? ==> r.error.BadRow? && r.error.row < |results| && results[r.error.row] == Err(r.error.why)
    ensures r.Err? ==> forall i :: 0 <= i < r.error.row ==> results[i].Ok?
  {
    if results == [] then Ok([])
    else
      var last := |results| - 1;
      match Collected(results[..last])
      case Err(e) => Err(e)
      case Ok(sources) =>
        match results[last]
        case Err(why) => Err(BadRow(last, why))
        case Ok(source) => Ok(sources + [source])
  }

  // ---------- distinctness ----------

  predicate ExternalIdUsed(entries: seq<Entry>, id: string) {
    exists i :: 0 <= i < |entries| && entries[i].externalId == id
  }

  predicate IdentityUsed(entries: seq<Entry>, identity: Identity) {
    exists i :: 0 <= i < |entries| && entries[i].identity == identity
  }

  predicate MemberIdUsed(entries: seq<Entry>, id: string) {
    exists i :: 0 <= i < |entries| && entries[i].memberId == id
  }

  ghost predicate Distinct(entries: seq<Entry>) {
    forall i, j :: 0 <= i < j < |entries| ==>
      && entries[i].externalId != entries[j].externalId
      && entries[i].identity != entries[j].identity
      && entries[i].memberId != entries[j].memberId
  }

  /** The first entry that repeats something is the one reported, and an external id before an identity before a member id. */
  function Accepted(entries: seq<Entry>): Option<PlanError> {
    if entries == [] then None
    else
      var (before, e) := (entries[..|entries| - 1], entries[|entries| - 1]);
      if Accepted(before).Some? then Accepted(before)
      else if ExternalIdUsed(before, e.externalId) then Some(DuplicateExternalId(e.externalId))
      else if IdentityUsed(before, e.identity) then Some(DuplicateIdentity(e.identity))
      else if MemberIdUsed(before, e.memberId) then Some(DuplicateMemberId(e.memberId))
      else None
  }

  lemma {:induction false} AcceptedMeansDistinct(entries: seq<Entry>)
    ensures Accepted(entries).None? <==> Distinct(entries)
  {
    if entries != [] {
      var last := |entries| - 1;
      var (before, e) := (entries[..last], entries[last]);
      AcceptedMeansDistinct(before);
      assert Distinct(entries) ==> Distinct(before);
      if Accepted(before).None? && Accepted(entries).None? {
        forall i | 0 <= i < last
          ensures entries[i].externalId != e.externalId && entries[i].identity != e.identity && entries[i].memberId != e.memberId
        {
          assert before[i] == entries[i];
        }
      }
    }
  }

  /** Summaries of the expected balances. */
  function Nonzero(entries: seq<Entry>): nat {
    if entries == [] then 0 else Nonzero(entries[..|entries| - 1]) + if entries[|entries| - 1].expected != 0 then 1 else 0
  }

  function Net(entries: seq<Entry>): nat {
    if entries == [] then 0 else Net(entries[..|entries| - 1]) + entries[|entries| - 1].expected
  }

  function EntriesOf(program: string, sources: seq<Source>, stableId: Hash): seq<Entry> {
    seq(|sources|, i requires 0 <= i < |sources| => EntryOf(program, sources[i], stableId))
  }

  function PlanOf(program: string, rows: seq<Row>, stableId: Hash, createdAt: string, digest: Digest): Result<Plan, PlanError> {
    if Trim(program) == "" then Err(NoProgram)
    else if rows == [] then Err(NoRows)
    else match Collected(Validated(rows))
         case Err(e) => Err(e)
         case Ok(sources) =>
           var entries := EntriesOf(program, sources, stableId);
           match Accepted(entries)
           case Some(e) => Err(e)
           case None => Ok(Signed(Contents(createdAt, program, entries, |entries|, Nonzero(entries), Net(entries)), digest))
  }

  /** What planning needs, said of the rows: everything valid, and all three ids distinct. */
  ghost predicate Plannable(program: string, rows: seq<Row>, stableId: Hash) {
    && Trim(program) != "" && rows != []
    && var results := Validated(rows);
       && (forall i :: 0 <= i < |rows| ==> results[i].Ok?)
       && forall i, j :: 0 <= i < j < |rows| ==> Differ(results[i].value, results[j].value, stableId)
  }

  function MemberIdOf(source: Source, stableId: Hash): string {
    if source.memberId.Some? then source.memberId.value else stableId("member", source.externalId)
  }

  predicate Differ(a: Source, b: Source, stableId: Hash) {
    a.externalId != b.externalId && a.identity != b.identity && MemberIdOf(a, stableId) != MemberIdOf(b, stableId)
  }

  /** Planning succeeds exactly when every row is valid and no two rows share an external id, an identity or a member id. */
  lemma PlanningSucceedsExactly(program: string, rows: seq<Row>, stableId: Hash, createdAt: string, digest: Digest)
    ensures PlanOf(program, rows, stableId, createdAt, digest).Ok? <==> Plannable(program, rows, stableId)
    ensures PlanOf(program, rows, stableId, createdAt, digest).Ok? ==>
              var plan := PlanOf(program, rows, stableId, createdAt, digest).value;
              && Distinct(plan.contents.entries) && Intact(plan, digest)
              && |plan.contents.entries| == plan.contents.members == |rows|
  {
    if Collected(Validated(rows)).Ok? {
      var sources := Collected(Validated(rows)).value;
      AcceptedMeansDistinct(EntriesOf(program, sources, stableId));
      DistinctSources(program, sources, stableId);
    }
  }

  /** A plan is for its program and time, has an entry for each row, and sums its entries up. */
  lemma PlanSaysExactly(program: string, rows: seq<Row>, stableId: Hash, createdAt: string, digest: Digest, i: nat)
    requires PlanOf(program, rows, stableId, createdAt, digest).Ok? && i < |rows|
    ensures var contents := PlanOf(program, rows, stableId, createdAt, digest).value.contents;
            && contents.program == program && contents.createdAt == createdAt
            && contents.netOpeningBalance == Net(contents.entries) && contents.nonzeroBalances == Nonzero(contents.entries)
            && |contents.entries| == |rows|
            && SourceMember(rows[i]).Ok? && contents.entries[i] == EntryOf(program, SourceMember(rows[i]).value, stableId)
  {
    var results := Validated(rows);
    assert results[i] == SourceMember(rows[i]);
    assert results[i] == Ok(Collected(results).value[i]);
  }

  /** What is reported of a plan that cannot be made: a missing program, missing rows, the first row that is not proper, then repetitions. */
  lemma PlanningFailsExactly(program: string, rows: seq<Row>, stableId: Hash, createdAt: string, digest: Digest, first: nat)
    ensures var r := PlanOf(program, rows, stableId, createdAt, digest);
            && (r == Err(NoProgram) <==> Trim(program) == "")
            && (r == Err(NoRows) <==> Trim(program) != "" && rows == [])
            && (Trim(program) != "" && first < |rows| && SourceMember(rows[first]).Err?
                && (forall i :: 0 <= i < first ==> SourceMember(rows[i]).Ok?) ==>
                  r == Err(BadRow(first, SourceMember(rows[first]).error)))
            && (r.Err? && r.error.BadRow? ==> r.error.row < |rows| && SourceMember(rows[r.error.row]) == Err(r.error.why))
  {
    var results := Validated(rows);
    assert forall i :: 0 <= i < |rows| ==> results[i] == SourceMember(rows[i]);
    if rows != [] && Collected(results).Ok? {
      RepetitionsAreReported(EntriesOf(program, Collected(results).value, stableId));
    }
  }

  lemma {:induction false} RepetitionsAreReported(entries: seq<Entry>)
    ensures Accepted(entries).Some? ==>
              var e := Accepted(entries).value;
              e.DuplicateExternalId? || e.DuplicateIdentity? || e.DuplicateMemberId?
  {
    if entries != [] {
      RepetitionsAreReported(entries[..|entries| - 1]);
    }
  }

  lemma DistinctSources(program: string, sources: seq<Source>, stableId: Hash)
    ensures Distinct(EntriesOf(program, sources, stableId))
            <==> forall i, j :: 0 <= i < j < |sources| ==> Differ(sources[i], sources[j], stableId)
  {
    var entries := EntriesOf(program, sources, stableId);
    forall i | 0 <= i < |sources|
      ensures entries[i].externalId == sources[i].externalId && entries[i].identity == sources[i].identity
              && entries[i].memberId == MemberIdOf(sources[i], stableId)
    {
    }
    if Distinct(entries) {
      forall i, j | 0 <= i < j < |sources| ensures Differ(sources[i], sources[j], stableId) {
        assert entries[i].externalId != entries[j].externalId;
      }
    }
    if forall i, j :: 0 <= i < j < |sources| ==> Differ(sources[i], sources[j], stableId) {
      forall i, j | 0 <= i < j < |entries|
        ensures && entries[i].externalId != entries[j].externalId && entries[i].identity != entries[j].identity
                && entries[i].memberId != entries[j].memberId
      {
        assert Differ(sources[i], sources[j], stableId);
      }
    }
  }

  /** An opening balance is written exactly for an entry that expects one, and for that amount. */
  predicate WellFormed(e: Entry) {
    && (e.opening.None? <==> e.expected == 0)
    && (e.opening.Some? ==> e.opening.value.amount == e.expected)
  }

  // ---------- what a row and a plan say, told of the cells ----------

  predicate IsWord(text: string, kind: IdentityKind) {
    match kind
    case Token => text == "token"
    case Email => text == "email"
    case Phone => text == "phone"
    case External => text == "external"
  }

  /** A row is read exactly when its cells are proper; cells are trimmed, and a missing type means an external identity. */
  lemma ReadExactly(row: Row)
    requires row.Row?
    ensures var r := SourceMember(row);
            var externalId := if row.externalId.Some? then Trim(row.externalId.value) else "";
            var value := if row.identityValue.Some? then Trim(row.identityValue.value) else "";
            var kind := if row.identityType.Some? then Trim(row.identityType.value) else "external";
            var unit := if row.unit.Some? then Trim(row.unit.value) else "";
            && (r.Ok? <==>
                  && externalId != "" && value != "" && (row.memberId.Some? ==> Trim(row.memberId.value) != "")
                  && (kind == "token" || kind == "email" || kind == "phone" || kind == "external")
                  && row.balance.Some? && row.balance.value >= 0
                  && (unit == "" || unit == "points" || unit == "visits" || unit == "stamps" || unit == "credits" || unit == "custom"))
            && (r.Ok? ==>
                  && r.value.externalId == externalId && r.value.identity.value == value && IsWord(kind, r.value.identity.kind)
                  && r.value.memberId == (if row.memberId.Some? then Some(Trim(row.memberId.value)) else None)
                  && r.value.balance == row.balance.value && r.value.unit == (if unit == "" then None else Some(unit)))
            && (r.Err? ==>
                  r.error == if externalId == "" then NoExternalId else if value == "" then NoIdentity
                             else if row.memberId.Some? && Trim(row.memberId.value) == "" then EmptyMemberId
                             else if kind !in {"token", "email", "phone", "external"} then BadIdentityType
                             else if row.balance.None? then BadBalance else if row.balance.value < 0 then NegativeBalance
                             else BadUnit)
  {
    TrimmedNothing();
  }

  lemma TrimmedNothing()
    ensures Trim("") == "" && Trim("external") == "external"
  {
  }

  /** Each entry of a plan says of its source what the engine is to be told: whom to enroll as whom, and what to post. */
  lemma PlannedExactly(program: string, sources: seq<Source>, stableId: Hash, i: nat)
    requires i < |sources|
    ensures var (e, source) := (EntriesOf(program, sources, stableId)[i], sources[i]);
            && |EntriesOf(program, sources, stableId)| == |sources|
            && e.externalId == source.externalId && e.identity == source.identity && e.expected == source.balance
            && e.memberId == (if source.memberId.Some? then source.memberId.value else stableId("member", source.externalId))
            && (e.opening.Some? <==> source.balance != 0)
            && (e.opening.Some? ==>
                  && e.opening.value.amount == source.balance && e.opening.value.unit == source.unit
                  && e.opening.value.adjustmentId == stableId("migration", program + ":" + source.externalId))
  {
  }

  /** The repetition that is reported: of the first entry that repeats anything, an external id before an identity before a member id. */
  lemma {:induction false} RepetitionReportedExactly(entries: seq<Entry>, i: nat)
    requires i < |entries| && Distinct(entries[..i]) && !Distinct(entries[..i + 1])
    ensures var e := entries[i];
            Accepted(entries) == Some(if exists k :: 0 <= k < i && entries[k].externalId == e.externalId then DuplicateExternalId(e.externalId)
                                      else if exists k :: 0 <= k < i && entries[k].identity == e.identity then DuplicateIdentity(e.identity)
                                      else DuplicateMemberId(e.memberId))
  {
    var (before, e) := (entries[..i], entries[i]);
    assert entries[..i + 1][..i] == before && forall k :: 0 <= k < i ==> before[k] == entries[k];
    AcceptedMeansDistinct(before);
    AcceptedMeansDistinct(entries[..i + 1]);
    RefusalIsFinal(entries, i + 1);
  }

  /** The summary adds up: each entry counts once when it expects something, and with what it expects. */
  lemma {:induction false} SummariesAddUp(a: seq<Entry>, b: seq<Entry>)
    ensures Net(a + b) == Net(a) + Net(b) && Nonzero(a + b) == Nonzero(a) + Nonzero(b)
    ensures forall e: Entry :: Net([e]) == e.expected && Nonzero([e]) == if e.expected == 0 then 0 else 1
  {
    if b == [] {
      assert a + b == a;
    } else {
      SummariesAddUp(a, b[..|b| - 1]);
      assert (a + b)[..|a + b| - 1] == a + b[..|b| - 1];
    }
    forall e: Entry ensures Net([e]) == e.expected && Nonzero([e]) == if e.expected == 0 then 0 else 1 {
      assert [e][..0] == [];
    }
  }

  // ---------- the method ----------

  function IdentityKey(identity: Identity): string {
    KindText(identity.kind) + ":" + identity.value
  }

  lemma IdentityKeysDiffer(a: Identity, b: Identity)
    ensures IdentityKey(a) == IdentityKey(b) <==> a == b
  {
    if IdentityKey(a) == IdentityKey(b) {
      assert Free(KindText(a.kind), ':') && Free(KindText(b.kind), ':');
      JoinedOnFirst(KindText(a.kind), a.value, KindText(b.kind), b.value, ':');
      assert KindText(a.kind)[0] == KindText(b.kind)[0];
    }
  }

  /** One pass with three sets, which stops at the first repetition. */
  method FirstDuplicate(entries: seq<Entry>) returns (r: Option<PlanError>)
    ensures r == Accepted(entries)
  {
    var externalIds: set<string>, identities: set<string>, memberIds: set<string> := {}, {}, {};
    for i := 0 to |entries|
      invariant Accepted(entries[..i]).None?
      invariant forall id :: id in externalIds <==> ExternalIdUsed(entries[..i], id)
      invariant forall identity :: IdentityKey(identity) in identities <==> IdentityUsed(entries[..i], identity)
      invariant forall id :: id in memberIds <==> MemberIdUsed(entries[..i], id)
    {
      var e := entries[i];
      assert entries[..i + 1] == entries[..i] + [e] && entries[..i + 1][..i] == entries[..i];
      RefusalIsFinal(entries, i + 1);
      if e.externalId in externalIds {
        return Some(DuplicateExternalId(e.externalId));
      }
      externalIds := externalIds + {e.externalId};
      if IdentityKey(e.identity) in identities {
        return Some(DuplicateIdentity(e.identity));
      }
      identities := identities + {IdentityKey(e.identity)};
      if e.memberId in memberIds {
        return Some(DuplicateMemberId(e.memberId));
      }
      memberIds := memberIds + {e.memberId};
      UsedAfter(entries[..i], e);
      forall identity
        ensures IdentityKey(identity) in identities <==> IdentityUsed(entries[..i], identity) || identity == e.identity
      {
        IdentityKeysDiffer(identity, e.identity);
      }
    }
    assert entries[..|entries|] == entries;
    return None;
  }

  method CreateMemberImportPlan(program: string, rows: seq<Row>, stableId: Hash, createdAt: string, digest: Digest)
    returns (r: Result<Plan, PlanError>)
    ensures r == PlanOf(program, rows, stableId, createdAt, digest)
  {
    if Trim(program) == "" {
      return Err(NoProgram);
    }
    if rows == [] {
      return Err(NoRows);
    }
    var sources := Collected(Validated(rows));
    if sources.Err? {
      return Err(sources.error);
    }
    var entries := EntriesOf(program, sources.value, stableId);
    var duplicate := FirstDuplicate(entries);
    if duplicate.Some? {
      return Err(duplicate.value);
    }
    var contents := Contents(createdAt, program, entries, |entries|, Nonzero(entries), Net(entries));
    return Ok(Plan(contents, digest(contents)));
  }

  lemma UsedAfter(entries: seq<Entry>, e: Entry)
    ensures forall id :: ExternalIdUsed(entries + [e], id) <==> ExternalIdUsed(entries, id) || id == e.externalId
    ensures forall identity :: IdentityUsed(entries + [e], identity) <==> IdentityUsed(entries, identity) || identity == e.identity
    ensures forall id :: MemberIdUsed(entries + [e], id) <==> MemberIdUsed(entries, id) || id == e.memberId
  {
    var after := entries + [e];
    assert after[|entries|] == e;
    forall i | 0 <= i < |entries| ensures after[i] == entries[i] {}
    forall id ensures ExternalIdUsed(entries, id) ==> ExternalIdUsed(after, id) {
      if i :| 0 <= i < |entries| && entries[i].externalId == id {
        assert after[i].externalId == id;
      }
    }
    forall identity ensures IdentityUsed(entries, identity) ==> IdentityUsed(after, identity) {
      if i :| 0 <= i < |entries| && entries[i].identity == identity {
        assert after[i].identity == identity;
      }
    }
    forall id ensures MemberIdUsed(entries, id) ==> MemberIdUsed(after, id) {
      if i :| 0 <= i < |entries| && entries[i].memberId == id {
        assert after[i].memberId == id;
      }
    }
  }

  lemma {:induction false} RefusalIsFinal(entries: seq<Entry>, i: nat)
    requires i <= |entries|
    ensures Accepted(entries[..i]).Some? ==> Accepted(entries) == Accepted(entries[..i])
    decreases |entries| - i
  {
    if i < |entries| {
      RefusalIsFinal(entries, i + 1);
      assert entries[..i + 1][..i] == entries[..i];
    } else {
      assert entries[..i] == entries;
    }
  }
}

/** Applying a plan to a new program, and reconciling what came of it with what was planned. */
module MemberImportReconciliation {
  import opened Prelude
  import opened Text
  import opened MemberImportPlanning

  /** A program keeps one balance for each unit, and one of its units is the primary one. */
  datatype Program = Program(primary: string, units: set<string>)

  /** What the loyalty engine holds that an import touches. */
  datatype Engine = Engine(members: set<string>, identities: map<Identity, string>, points: map<string, int>,
                           adjustments: map<string, (string, string, int)>)

  datatype EngineError = MemberExists | MemberNotFound | UnitNotConfigured | AdjustmentConflict

  function BalanceKey(program: Program, memberId: string, unit: string): string {
    if unit == program.primary then memberId else unit + ":" + memberId
  }

  function UnitOf(program: Program, e: Entry): string {
    if e.opening.Some? && e.opening.value.unit.Some? then e.opening.value.unit.value else program.primary
  }

  function KeyOf(program: Program, e: Entry): string {
    BalanceKey(program, e.memberId, UnitOf(program, e))
  }

  function At(points: map<string, int>, key: string): int {
    if key in points then points[key] else 0
  }

  /** A known identity is answered with its member; a new one needs a new member id, whose balances start at zero. */
  function Enroll(s: Engine, program: Program, e: Entry): Result<Engine, EngineError> {
    if e.identity in s.identities then Ok(s)
    else if e.memberId in s.members then Err(MemberExists)
    else Ok(s.(members := s.members + {e.memberId}, identities := s.identities[e.identity := e.memberId],
               points := s.points + map unit | unit in program.units :: BalanceKey(program, e.memberId, unit) := 0))
  }

  /** An adjustment id is used once; the same adjustment again changes nothing. */
  function Post(s: Engine, program: Program, e: Entry): Result<Engine, EngineError> {
    if e.opening.None? then Ok(s)
    else
      var (unit, opening, key) := (UnitOf(program, e), e.opening.value, KeyOf(program, e));
      var facts := (e.memberId, unit, opening.amount);
      if e.memberId !in s.members then Err(MemberNotFound)
      else if unit !in program.units then Err(UnitNotConfigured)
      else if opening.adjustmentId in s.adjustments then
        if s.adjustments[opening.adjustmentId] == facts then Ok(s) else Err(AdjustmentConflict)
      else Ok(s.(points := s.points[key := At(s.points, key) + opening.amount],
                 adjustments := s.adjustments[opening.adjustmentId := facts]))
  }

  function EnrollAll(s: Engine, program: Program, entries: seq<Entry>): Result<Engine, EngineError> {
    if entries == [] then Ok(s)
    else match EnrollAll(s, program, entries[..|entries| - 1])
         case Err(e) => Err(e)
         case Ok(t) => Enroll(t, program, entries[|entries| - 1])
  }

  function PostAll(s: Engine, program: Program, entries: seq<Entry>): Result<Engine, EngineError> {
    if entries == [] then Ok(s)
    else match PostAll(s, program, entries[..|entries| - 1])
         case Err(e) => Err(e)
         case Ok(t) => Post(t, program, entries[|entries| - 1])
  }

  const EMPTY: Engine := Engine({}, map[], map[], map[])

  /** All members are enrolled before any opening balance is posted. */
  function ApplyPlan(program: Program, entries: seq<Entry>): Result<Engine, EngineError> {
    match EnrollAll(EMPTY, program, entries)
    case Err(e) => Err(e)
    case Ok(s) => PostAll(s, program, entries)
  }

  // ---------- the report ----------

  datatype Status = Matched | Missing | BalanceMismatch

  datatype Report = Report(passed: bool, statuses: seq<Status>, matched: nat, missing: nat, mismatched: nat)

  function StatusOf(s: Engine, program: Program, e: Entry): Status {
    if e.memberId !in s.members then Missing
    else if At(s.points, KeyOf(program, e)) == e.expected then Matched
    else BalanceMismatch
  }

  function Count(statuses: seq<Status>, status: Status): nat {
    if statuses == [] then 0
    else Count(statuses[..|statuses| - 1], status) + if statuses[|statuses| - 1] == status then 1 else 0
  }

  function Reconcile(s: Engine, program: Program, entries: seq<Entry>): Report {
    var statuses := seq(|entries|, i requires 0 <= i < |entries| => StatusOf(s, program, entries[i]));
    Report(forall i :: 0 <= i < |statuses| ==> statuses[i].Matched?, statuses,
           Count(statuses, Matched), Count(statuses, Missing), Count(statuses, BalanceMismatch))
  }

  lemma {:induction false} CountsAddUp(statuses: seq<Status>)
    ensures Count(statuses, Matched) + Count(statuses, Missing) + Count(statuses, BalanceMismatch) == |statuses|
    ensures Count(statuses, Matched) == |statuses| <==> forall i :: 0 <= i < |statuses| ==> statuses[i].Matched?
  {
    if statuses != [] {
      CountsAddUp(statuses[..|statuses| - 1]);
      assert forall i :: 0 <= i < |statuses| - 1 ==> statuses[..|statuses| - 1][i] == statuses[i];
    }
  }

  /** The report covers the whole plan, and passes exactly when every planned member is there with its exact balance. */
  lemma ReportCovers(s: Engine, program: Program, entries: seq<Entry>)
    ensures var r := Reconcile(s, program, entries);
            && |r.statuses| == |entries| && r.matched + r.missing + r.mismatched == |entries|
            && (forall i :: 0 <= i < |entries| ==>
                  && (r.statuses[i].Missing? <==> entries[i].memberId !in s.members)
                  && (r.statuses[i].Matched? <==>
                        entries[i].memberId in s.members && At(s.points, KeyOf(program, entries[i])) == entries[i].expected))
            && (r.passed <==> r.matched == |entries|)
            && (r.passed <==> forall i :: 0 <= i < |entries| ==>
                  entries[i].memberId in s.members && At(s.points, KeyOf(program, entries[i])) == entries[i].expected)
  {
    var r := Reconcile(s, program, entries);
    CountsAddUp(r.statuses);
    assert |r.statuses| == |entries|;
    forall i | 0 <= i < |entries|
      ensures r.statuses[i].Matched?
              <==> entries[i].memberId in s.members && At(s.points, KeyOf(program, entries[i])) == entries[i].expected
    {
    }
  }

  // ---------- what applying a plan leaves behind ----------

  /** What is posted to a key by all entries together. */
  function PostedAt(program: Program, entries: seq<Entry>, key: string): nat {
    if entries == [] then 0
    else
      var e := entries[|entries| - 1];
      PostedAt(program, entries[..|entries| - 1], key)
      + if e.opening.Some? && KeyOf(program, e) == key then e.opening.value.amount else 0
  }

  ghost predicate Postable(program: Program, entries: seq<Entry>) {
    && Distinct(entries)
    && (forall i :: 0 <= i < |entries| ==> WellFormed(entries[i]) && UnitOf(program, entries[i]) in program.units)
    && AdjustmentsDiffer(entries)
  }

  /** Adjustment ids are truncated hashes: this asks that those of the plan at hand are distinct. */
  ghost predicate AdjustmentsDiffer(entries: seq<Entry>) {
    forall i, j :: 0 <= i < j < |entries| && entries[i].opening.Some? && entries[j].opening.Some? ==>
      entries[i].opening.value.adjustmentId != entries[j].opening.value.adjustmentId
  }

  lemma EnrollingOne(s: Engine, program: Program, e: Entry)
    requires e.identity !in s.identities && e.memberId !in s.members && forall key :: At(s.points, key) == 0
    ensures Enroll(s, program, e).Ok? && forall key :: At(Enroll(s, program, e).value.points, key) == 0
  {
    var zeros := map unit | unit in program.units :: BalanceKey(program, e.memberId, unit) := 0;
    forall key ensures At(s.points + zeros, key) == 0 {
      assert At(s.points, key) == 0;
      assert key in zeros ==> zeros[key] == 0;
    }
  }

  lemma {:induction false} EnrollingSucceeds(program: Program, entries: seq<Entry>)
    requires Distinct(entries)
    ensures var r := EnrollAll(EMPTY, program, entries);
            && r.Ok? && r.value.adjustments == map[]
            && (forall id :: id in r.value.members <==> MemberIdUsed(entries, id))
            && (forall identity :: identity in r.value.identities <==> IdentityUsed(entries, identity))
            && forall key :: At(r.value.points, key) == 0
  {
    if entries != [] {
      var (before, e) := (entries[..|entries| - 1], entries[|entries| - 1]);
      EnrollingSucceeds(program, before);
      assert entries == before + [e];
      UsedAfter(before, e);
      EnrollingOne(EnrollAll(EMPTY, program, before).value, program, e);
    }
  }

  lemma {:induction false} PostingSucceeds(program: Program, s: Engine, entries: seq<Entry>)
    requires Postable(program, entries) && s.adjustments == map[]
    requires forall i :: 0 <= i < |entries| ==> entries[i].memberId in s.members
    ensures var r := PostAll(s, program, entries);
            && r.Ok? && r.value.members == s.members
            && (forall id :: id in r.value.adjustments ==>
                  exists i :: 0 <= i < |entries| && entries[i].opening.Some? && entries[i].opening.value.adjustmentId == id)
            && forall key :: At(r.value.points, key) == At(s.points, key) + PostedAt(program, entries, key)
  {
    if entries != [] {
      var (before, e) := (entries[..|entries| - 1], entries[|entries| - 1]);
      PostingSucceeds(program, s, before);
      var t := PostAll(s, program, before).value;
      forall i | 0 <= i < |before| && before[i].opening.Some? && e.opening.Some?
        ensures before[i].opening.value.adjustmentId != e.opening.value.adjustmentId
      {
        assert entries[i] == before[i];
      }
      assert e.opening.Some? ==> e.opening.value.adjustmentId !in t.adjustments;
      assert e.opening.Some? ==> entries[|entries| - 1].opening.value.adjustmentId == e.opening.value.adjustmentId;
      forall id | id in t.adjustments
        ensures exists i :: 0 <= i < |entries| && entries[i].opening.Some? && entries[i].opening.value.adjustmentId == id
      {
        var i :| 0 <= i < |before| && before[i].opening.Some? && before[i].opening.value.adjustmentId == id;
        assert entries[i] == before[i];
      }
    }
  }

  /** Applying works, and each balance is what all entries together posted to it. */
  lemma ApplyingSucceeds(program: Program, entries: seq<Entry>)
    requires Postable(program, entries)
    ensures var r := ApplyPlan(program, entries);
            && r.Ok? && (forall i :: 0 <= i < |entries| ==> entries[i].memberId in r.value.members)
            && forall key :: At(r.value.points, key) == PostedAt(program, entries, key)
  {
    EnrollingSucceeds(program, entries);
    var s := EnrollAll(EMPTY, program, entries).value;
    forall i | 0 <= i < |entries| ensures entries[i].memberId in s.members {
      assert MemberIdUsed(entries, entries[i].memberId);
    }
    PostingSucceeds(program, s, entries);
  }

  /** An opening balance is posted to a member of the engine, in a unit of the program, under an adjustment id that means one thing. */
  lemma PostedExactly(s: Engine, program: Program, e: Entry)
    requires e.opening.Some?
    ensures var (r, opening, unit) := (Post(s, program, e), e.opening.value, UnitOf(program, e));
            var key := if unit == program.primary then e.memberId else unit + ":" + e.memberId;
            if e.memberId !in s.members then r == Err(MemberNotFound)
            else if unit !in program.units then r == Err(UnitNotConfigured)
            else if opening.adjustmentId !in s.adjustments then
              && r.Ok? && r.value.members == s.members && r.value.identities == s.identities
              && r.value.points == s.points[key := At(s.points, key) + opening.amount]
              && r.value.adjustments == s.adjustments[opening.adjustmentId := (e.memberId, unit, opening.amount)]
            else if s.adjustments[opening.adjustmentId] == (e.memberId, unit, opening.amount) then r == Ok(s)
            else r == Err(AdjustmentConflict)
  {
  }

  /** An identity is enrolled once, as a member id that nobody has. */
  lemma EnrolledExactly(s: Engine, program: Program, e: Entry)
    ensures var r := Enroll(s, program, e);
            if e.identity in s.identities then r == Ok(s)
            else if e.memberId in s.members then r == Err(MemberExists)
            else
              && r.Ok? && r.value.members == s.members + {e.memberId} && r.value.identities == s.identities[e.identity := e.memberId]
              && r.value.adjustments == s.adjustments
              && (forall unit :: unit in program.units ==>
                    At(r.value.points, if unit == program.primary then e.memberId else unit + ":" + e.memberId) == 0)
  {
    var zeros := map unit | unit in program.units :: BalanceKey(program, e.memberId, unit) := 0;
    assert forall unit :: unit in program.units ==> BalanceKey(program, e.memberId, unit) in zeros;
  }

  // ---------- applying a plan again ----------

  /** Everything the plan asks for has been done. */
  ghost predicate Done(s: Engine, program: Program, entries: seq<Entry>) {
    forall i :: 0 <= i < |entries| ==>
      && entries[i].identity in s.identities && entries[i].memberId in s.members
      && (entries[i].opening.Some? ==>
            && UnitOf(program, entries[i]) in program.units
            && entries[i].opening.value.adjustmentId in s.adjustments
            && s.adjustments[entries[i].opening.value.adjustmentId]
               == (entries[i].memberId, UnitOf(program, entries[i]), entries[i].opening.value.amount))
  }

  lemma {:induction false} PostedForGood(program: Program, s: Engine, entries: seq<Entry>, i: nat)
    requires PostAll(s, program, entries).Ok? && i < |entries| && entries[i].opening.Some?
    ensures var (r, opening) := (PostAll(s, program, entries).value, entries[i].opening.value);
            && UnitOf(program, entries[i]) in program.units && opening.adjustmentId in r.adjustments
            && r.adjustments[opening.adjustmentId] == (entries[i].memberId, UnitOf(program, entries[i]), opening.amount)
  {
    var last := |entries| - 1;
    if i < last {
      PostedForGood(program, s, entries[..last], i);
      assert entries[..last][i] == entries[i];
    }
  }

  lemma {:induction false} NothingLeftToDo(s: Engine, program: Program, entries: seq<Entry>)
    requires Done(s, program, entries)
    ensures EnrollAll(s, program, entries) == Ok(s) && PostAll(s, program, entries) == Ok(s)
  {
    if entries != [] {
      var before := entries[..|entries| - 1];
      assert forall i :: 0 <= i < |before| ==> before[i] == entries[i];
      NothingLeftToDo(s, program, before);
    }
  }

  lemma {:induction false} PostingEnrollsNobody(program: Program, s: Engine, entries: seq<Entry>)
    requires PostAll(s, program, entries).Ok?
    ensures PostAll(s, program, entries).value.members == s.members && PostAll(s, program, entries).value.identities == s.identities
  {
    if entries != [] {
      PostingEnrollsNobody(program, s, entries[..|entries| - 1]);
    }
  }

  /** An import that was applied can be applied again, and nothing changes. */
  lemma ImportTwiceIsImportOnce(program: Program, entries: seq<Entry>)
    requires Postable(program, entries)
    ensures var r := ApplyPlan(program, entries);
            r.Ok? && EnrollAll(r.value, program, entries) == r && PostAll(r.value, program, entries) == r
  {
    ApplyingSucceeds(program, entries);
    EnrollingSucceeds(program, entries);
    var (enrolled, r) := (EnrollAll(EMPTY, program, entries).value, ApplyPlan(program, entries).value);
    PostingEnrollsNobody(program, enrolled, entries);
    forall i | 0 <= i < |entries|
      ensures entries[i].identity in r.identities && entries[i].memberId in r.members
    {
      assert IdentityUsed(entries, entries[i].identity);
    }
    forall i | 0 <= i < |entries| && entries[i].opening.Some?
      ensures UnitOf(program, entries[i]) in program.units && entries[i].opening.value.adjustmentId in r.adjustments
      ensures r.adjustments[entries[i].opening.value.adjustmentId]
              == (entries[i].memberId, UnitOf(program, entries[i]), entries[i].opening.value.amount)
    {
      PostedForGood(program, enrolled, entries, i);
    }
    NothingLeftToDo(r, program, entries);
  }

  // ---------- when the report passes ----------

  predicate Collide(program: Program, a: Entry, b: Entry) {
    KeyOf(program, a) == KeyOf(program, b) && (a.expected != 0 || b.expected != 0)
  }

  lemma {:induction false} PostedAtLeast(program: Program, entries: seq<Entry>, i: nat, key: string)
    requires i < |entries| && WellFormed(entries[i]) && KeyOf(program, entries[i]) == key
    ensures PostedAt(program, entries, key) >= entries[i].expected
  {
    var last := |entries| - 1;
    if i < last {
      PostedAtLeast(program, entries[..last], i, key);
    }
  }

  lemma {:induction false} PostedByBoth(program: Program, entries: seq<Entry>, i: nat, j: nat, key: string)
    requires i < j < |entries| && WellFormed(entries[i]) && WellFormed(entries[j])
    requires KeyOf(program, entries[i]) == key && KeyOf(program, entries[j]) == key
    ensures PostedAt(program, entries, key) >= entries[i].expected + entries[j].expected
  {
    var last := |entries| - 1;
    if j < last {
      PostedByBoth(program, entries[..last], i, j, key);
    } else {
      PostedAtLeast(program, entries[..last], i, key);
    }
  }

  lemma {:induction false} PostedByNone(program: Program, entries: seq<Entry>, key: string)
    requires forall i :: 0 <= i < |entries| ==>
               WellFormed(entries[i]) && (KeyOf(program, entries[i]) == key ==> entries[i].expected == 0)
    ensures PostedAt(program, entries, key) == 0
  {
    if entries != [] {
      PostedByNone(program, entries[..|entries| - 1], key);
    }
  }

  lemma {:induction false} PostedAlone(program: Program, entries: seq<Entry>, i: nat)
    requires i < |entries| && forall k :: 0 <= k < |entries| ==> WellFormed(entries[k])
    requires forall k :: 0 <= k < |entries| && k != i ==> !Collide(program, entries[k], entries[i])
    ensures PostedAt(program, entries, KeyOf(program, entries[i])) == entries[i].expected
  {
    var (last, key) := (|entries| - 1, KeyOf(program, entries[i]));
    assert i != last ==> !Collide(program, entries[last], entries[i]);
    if i < last {
      PostedAlone(program, entries[..last], i);
    } else {
      forall k | 0 <= k < last ensures KeyOf(program, entries[k]) == key ==> entries[k].expected == 0 {
        assert !Collide(program, entries[k], entries[i]);
      }
      PostedByNone(program, entries[..last], key);
    }
  }

  /** An applied plan reconciles exactly when no two entries share a balance key, unless both expect nothing. */
  lemma ReconcilesExactly(program: Program, entries: seq<Entry>)
    requires Postable(program, entries)
    ensures var r := ApplyPlan(program, entries);
            && r.Ok?
            && (Reconcile(r.value, program, entries).passed
                <==> forall i, j :: 0 <= i < j < |entries| ==> !Collide(program, entries[i], entries[j]))
  {
    ApplyingSucceeds(program, entries);
    var s := ApplyPlan(program, entries).value;
    ReportCovers(s, program, entries);
    if Reconcile(s, program, entries).passed {
      forall i, j | 0 <= i < j < |entries| ensures !Collide(program, entries[i], entries[j]) {
        if KeyOf(program, entries[i]) == KeyOf(program, entries[j]) {
          PostedByBoth(program, entries, i, j, KeyOf(program, entries[i]));
        }
      }
    }
    if forall i, j :: 0 <= i < j < |entries| ==> !Collide(program, entries[i], entries[j]) {
      forall i | 0 <= i < |entries| ensures At(s.points, KeyOf(program, entries[i])) == entries[i].expected {
        forall k | 0 <= k < |entries| && k != i ensures !Collide(program, entries[k], entries[i]) {
          assert k < i ==> !Collide(program, entries[k], entries[i]);
          assert i < k ==> !Collide(program, entries[i], entries[k]);
        }
        PostedAlone(program, entries, i);
      }
    }
  }

  /** Balance keys can only be shared when one member id spells out a unit and another member id. */
  lemma KeysDiffer(program: Program, a: Entry, b: Entry)
    requires a.memberId != b.memberId && Free(UnitOf(program, a), ':') && Free(UnitOf(program, b), ':')
    requires Free(a.memberId, ':') && Free(b.memberId, ':')
    ensures KeyOf(program, a) != KeyOf(program, b)
  {
    var (u, v) := (UnitOf(program, a), UnitOf(program, b));
    assert u != program.primary ==> (u + ":" + a.memberId)[|u|] == ':';
    assert v != program.primary ==> (v + ":" + b.memberId)[|v|] == ':';
    if u != program.primary && v != program.primary && KeyOf(program, a) == KeyOf(program, b) {
      JoinedOnFirst(u, a.memberId, v, b.memberId, ':');
    }
  }

  lemma PlansArePostable(programId: string, rows: seq<Row>, stableId: Hash, createdAt: string, digest: Digest, program: Program)
    requires PlanOf(programId, rows, stableId, createdAt, digest).Ok?
    requires var entries := PlanOf(programId, rows, stableId, createdAt, digest).value.contents.entries;
             AdjustmentsDiffer(entries) && forall e :: e in entries ==> UnitOf(program, e) in program.units
    ensures Postable(program, PlanOf(programId, rows, stableId, createdAt, digest).value.contents.entries)
  {
    PlanningSucceedsExactly(programId, rows, stableId, createdAt, digest);
    var entries := PlanOf(programId, rows, stableId, createdAt, digest).value.contents.entries;
    forall i | 0 <= i < |entries| ensures UnitOf(program, entries[i]) in program.units {
      assert entries[i] in entries;
    }
  }

  /** An import whose member ids hold no colon, applied to a new program with its units, always reconciles. */
  lemma ImportReconciles(programId: string, rows: seq<Row>, stableId: Hash, createdAt: string, digest: Digest, program: Program)
    requires PlanOf(programId, rows, stableId, createdAt, digest).Ok?
    requires forall unit :: unit in program.units ==> Free(unit, ':')
    requires var entries := PlanOf(programId, rows, stableId, createdAt, digest).value.contents.entries;
             && AdjustmentsDiffer(entries)
             && forall e :: e in entries ==> UnitOf(program, e) in program.units && Free(e.memberId, ':')
    ensures var entries := PlanOf(programId, rows, stableId, createdAt, digest).value.contents.entries;
            var r := ApplyPlan(program, entries);
            r.Ok? && Reconcile(r.value, program, entries).passed
  {
    PlansArePostable(programId, rows, stableId, createdAt, digest, program);
    var entries := PlanOf(programId, rows, stableId, createdAt, digest).value.contents.entries;
    ReconcilesExactly(program, entries);
    forall i, j | 0 <= i < j < |entries| ensures !Collide(program, entries[i], entries[j]) {
      assert entries[i] in entries && entries[j] in entries;
      KeysDiffer(program, entries[i], entries[j]);
    }
  }

  /** A member id that spells out another's balance key makes an applied plan fail to reconcile. */
  lemma SpelledOutKeyFails(program: Program, a: Entry, b: Entry)
    requires Postable(program, [a, b]) && a.opening.Some? && UnitOf(program, a) != program.primary
    requires UnitOf(program, b) == program.primary && b.memberId == UnitOf(program, a) + ":" + a.memberId
    ensures var r := ApplyPlan(program, [a, b]); r.Ok? && !Reconcile(r.value, program, [a, b]).passed
  {
    ReconcilesExactly(program, [a, b]);
    assert Collide(program, [a, b][0], [a, b][1]);
  }
}
