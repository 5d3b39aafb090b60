/** The encrypted credential handoff: an idealised authenticated encryption bound to its environment and operation. */
module Handoffs {
  import opened Prelude
  import opened Text

  const HANDOFF_AAD_PREFIX := "lip-cloud-credential-handoff/v1"
  const HANDOFF_RETENTION_MS: int := 24 * 60 * 60 * 1_000

  /** What the issuer answers with. */
  datatype Credential = Credential(environment: string, tenant: string, program: string, apiUrl: string, adminUrl: string,
                                   apiKey: string, apiKeyId: string, replacedExpires: Option<int>)

  /** What a caller receives, and what is served again on a retry. */
  datatype Handoff = Handoff(credential: Credential, issuedAt: int)

  /** The fingerprint is a truncated hash, so two keys may share it. */
  datatype EncryptionKey = EncryptionKey(bytes: string, fingerprint: string)

  datatype Envelope = Envelope(keyFingerprint: string, iv: string, box: Box)

  /** A box gives its plaintext back under the key and the associated data it was made with, and under nothing else. */
  datatype Box = Box(key: string, associatedData: string, plaintext: Handoff)

  datatype DecryptionError = DifferentKey | NotAuthentic

  function HandoffAad(environment: string, operation: string): string {
    HANDOFF_AAD_PREFIX + ":" + environment + ":" + operation
  }

  function Encrypt(handoff: Handoff, key: EncryptionKey, operation: string, iv: string): Envelope {
    Envelope(key.fingerprint, iv, Box(key.bytes, HandoffAad(handoff.credential.environment, operation), handoff))
  }

  function Decrypt(envelope: Envelope, key: EncryptionKey, environment: string, operation: string): Result<Handoff, DecryptionError> {
    if envelope.keyFingerprint != key.fingerprint then Err(DifferentKey)
    else if envelope.box.key != key.bytes || envelope.box.associatedData != HandoffAad(environment, operation) then Err(NotAuthentic)
    else Ok(envelope.box.plaintext)
  }

  /**
   An envelope opens under its own key, environment and operation only: a row pasted into another
   environment or operation gives nothing.  Operation ids are UUIDs, which have no colon; a colon in
   one could move between the two ids, as "env" with "a:op" and "env:a" with "op" are joined alike.
   */
  lemma OpensOnlyWhereSealed(handoff: Handoff, key: EncryptionKey, operation: string, iv: string,
                             otherKey: EncryptionKey, environment: string, otherOperation: string)
    requires Free(operation, ':') && Free(otherOperation, ':')
    ensures Decrypt(Encrypt(handoff, key, operation, iv), otherKey, environment, otherOperation)
            == (if otherKey == key && environment == handoff.credential.environment && otherOperation == operation then Ok(handoff)
                else if otherKey.fingerprint != key.fingerprint then Err(DifferentKey)
                else Err(NotAuthentic))
  {
    if HandoffAad(handoff.credential.environment, operation) == HandoffAad(environment, otherOperation) {
      var prefix := HANDOFF_AAD_PREFIX + ":";
      JoinedOnLast(prefix + handoff.credential.environment, operation, prefix + environment, otherOperation, ':');
      assert handoff.credential.environment == (prefix + handoff.credential.environment)[|prefix|..];
      assert environment == (prefix + environment)[|prefix|..];
    }
  }
}

/** Credential-operation records and the in-memory store that keeps them. */
module CredentialStore {
  import opened Prelude
  import opened Handoffs

  datatype Kind = Create | Rotate

  datatype State = Pending | Issued | Failed

  /** SHA-256 of the request, idealised: it is equal exactly for equal requests. */
  datatype Fingerprint = Fingerprint(environment: string, kind: Kind, overlap: Option<int>)

  datatype Record = Record(
    id: string,
    environment: string,
    idempotencyKey: string,
    fingerprint: Fingerprint,
    state: State,
    actor: string,
    issuedKey: Option<string>,
    replacedExpires: Option<int>,
    envelope: Option<Envelope>,
    handoffExpires: Option<int>,
    lastError: Option<string>,
    createdAt: int,
    completedAt: Option<int>)

  type Records = map<string, Record>

  predicate SameRequest(a: Record, b: Record) {
    a.environment == b.environment && a.idempotencyKey == b.idempotencyKey
  }

  predicate Owns(records: Records, id: string, environment: string, key: string) {
    id in records && records[id].environment == environment && records[id].idempotencyKey == key
  }

  ghost predicate Owned(records: Records, environment: string, key: string) {
    exists id :: Owns(records, id, environment, key)
  }

  /** Each record is filed under its own id and each idempotency key has one owner per environment. */
  ghost predicate WellFormed(records: Records) {
    && (forall id :: id in records ==> records[id].id == id)
    && (forall a, b :: a in records && b in records && SameRequest(records[a], records[b]) ==> a == b)
  }

  function WithIssuedKey(r: Record, key: string): Record {
    r.(issuedKey := Some(key))
  }

  function Completed(r: Record, key: string, replacedExpires: Option<int>, envelope: Envelope, handoffExpires: int, at: int): Record {
    r.(state := Issued, issuedKey := Some(key),
       replacedExpires := if replacedExpires.Some? then replacedExpires else r.replacedExpires,
       envelope := Some(envelope), handoffExpires := Some(handoffExpires), completedAt := Some(at), lastError := None)
  }

  function WithFailure(r: Record, message: string, at: int): Record {
    r.(state := Failed, lastError := Some(message), completedAt := Some(at))
  }

  function Reopened(r: Record): Record {
    r.(state := Pending, issuedKey := None, lastError := None, completedAt := None)
  }

  predicate Purgeable(r: Record, now: int) {
    r.envelope.Some? && r.handoffExpires.Some? && r.handoffExpires.value <= now
  }

  function Purged(r: Record, now: int): Record {
    if Purgeable(r, now) then r.(envelope := None) else r
  }

  function PurgeableIds(records: Records, now: int): set<string> {
    set id | id in records && Purgeable(records[id], now)
  }

  function PurgeAll(records: Records, now: int): Records {
    map id | id in records :: Purged(records[id], now)
  }

  /** A purge under way: the records still to visit are as they were. */
  ghost function PurgeBut(records: Records, rest: set<string>, now: int): Records {
    map id | id in records :: if id in rest then records[id] else Purged(records[id], now)
  }

  lemma PurgeNext(records: Records, rest: set<string>, id: string, now: int)
    requires id in rest && rest <= records.Keys
    ensures PurgeBut(records, rest - {id}, now) == PurgeBut(records, rest, now)[id := Purged(records[id], now)]
    ensures PurgeBut(records, rest, now)[id] == records[id]
    ensures PurgeBut(records, rest, now)[id := records[id]] == PurgeBut(records, rest, now)
    ensures |PurgeableIds(records, now) - (rest - {id})|
            == |PurgeableIds(records, now) - rest| + if Purgeable(records[id], now) then 1 else 0
  {
    var (all, done) := (PurgeableIds(records, now), PurgeableIds(records, now) - rest);
    assert all - (rest - {id}) == if Purgeable(records[id], now) then done + {id} else done;
  }

  lemma PurgeEnds(records: Records, now: int)
    ensures PurgeBut(records, records.Keys, now) == records && |PurgeableIds(records, now) - records.Keys| == 0
    ensures PurgeBut(records, {}, now) == PurgeAll(records, now) && PurgeableIds(records, now) - {} == PurgeableIds(records, now)
  {
    assert PurgeableIds(records, now) - records.Keys == {};
  }

  lemma PurgingKeepsRecords(records: Records, now: int)
    requires WellFormed(records)
    ensures WellFormed(PurgeAll(records, now))
  {
    forall a, b | a in records && b in records && SameRequest(Purged(records[a], now), Purged(records[b], now)) ensures a == b {
      assert SameRequest(records[a], records[b]);
    }
  }

  class MemoryCredentialOperationStore {
    var records: Records

    ghost predicate Valid()
      reads this
    {
      WellFormed(records)
    }

    constructor ()
      ensures Valid() && records == map[]
    {
      records := map[];
    }

    /** Files the record under its idempotency key unless a record is filed there already; no other call falls between. */
    method Claim(record: Record) returns (claimed: bool, result: Record)
      requires Valid() && record.id !in records
      modifies this
      ensures Valid()
      ensures claimed <==> !Owned(old(records), record.environment, record.idempotencyKey)
      ensures claimed ==> result == record && records == old(records)[record.id := record]
      ensures !claimed ==> records == old(records) && result.id in records && records[result.id] == result
                           && SameRequest(result, record)
    {
      var rest := records.Keys;
      while rest != {}
        invariant rest <= records.Keys && records == old(records)
        invariant forall id :: id in records && id !in rest ==> !SameRequest(records[id], record)
        decreases rest
      {
        var id :| id in rest;
        if SameRequest(records[id], record) {
          assert Owns(records, id, record.environment, record.idempotencyKey);
          return false, records[id];
        }
        rest := rest - {id};
      }
      records := records[record.id := record];
      return true, record;
    }

    method RecordIssuedKey(id: string, key: string) returns (known: bool)
      requires Valid()
      modifies this
      ensures Valid() && known == (id in old(records))
      ensures records == if known then old(records)[id := WithIssuedKey(old(records)[id], key)] else old(records)
    {
      known := id in records;
      if known { records := records[id := records[id].(issuedKey := Some(key))]; }
    }

    method Complete(id: string, key: string, replacedExpires: Option<int>, envelope: Envelope, handoffExpires: int, at: int)
      returns (known: bool)
      requires Valid()
      modifies this
      ensures Valid() && known == (id in old(records))
      ensures records == if known
                         then old(records)[id := Completed(old(records)[id], key, replacedExpires, envelope, handoffExpires, at)]
                         else old(records)
    {
      known := id in records;
      if known {
        var r := records[id].(lastError := None);
        if replacedExpires.Some? { r := r.(replacedExpires := replacedExpires); }
        r := r.(state := Issued, issuedKey := Some(key), envelope := Some(envelope));
        records := records[id := r.(handoffExpires := Some(handoffExpires), completedAt := Some(at))];
      }
    }

    method Fail(id: string, message: string, at: int) returns (known: bool)
      requires Valid()
      modifies this
      ensures Valid() && known == (id in old(records))
      ensures records == if known then old(records)[id := WithFailure(old(records)[id], message, at)] else old(records)
    {
      known := id in records;
      if known { records := records[id := records[id].(state := Failed, lastError := Some(message), completedAt := Some(at))]; }
    }

    method Reopen(id: string) returns (known: bool)
      requires Valid()
      modifies this
      ensures Valid() && known == (id in old(records))
      ensures records == if known then old(records)[id := Reopened(old(records)[id])] else old(records)
      ensures known ==> records[id] == old(records)[id].(state := Pending, issuedKey := None, lastError := None, completedAt := None)
    {
      known := id in records;
      if known {
        records := records[id := records[id].(issuedKey := None, lastError := None, completedAt := None, state := Pending)];
      }
    }

    /** Erases every expired envelope, keeps everything else, and counts what it erased. */
    method PurgeExpiredHandoffs(now: int) returns (purged: nat)
      requires Valid()
      modifies this
      ensures Valid()
      ensures records == PurgeAll(old(records), now)
      ensures purged == |PurgeableIds(old(records), now)|
    {
      purged := 0;
      ghost var before := records;
      var rest := records.Keys;
      PurgeEnds(before, now);
      while rest != {}
        invariant rest <= before.Keys && records == PurgeBut(before, rest, now)
        invariant purged == |PurgeableIds(before, now) - rest|
        decreases rest
      {
        var id :| id in rest;
        PurgeNext(before, rest, id, now);
        rest := rest - {id};
        var r := records[id];
        if Purgeable(r, now) {
          r := r.(envelope := None);
          records := records[id := r];
          purged := purged + 1;
        }
        assert r == Purged(before[id], now);
      }
      PurgingKeepsRecords(before, now);
    }
  }
}
