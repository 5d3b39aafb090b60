/**
 The tenant's access-control key table: creation, rotation with a bounded overlap, and
 idempotent revocation.  A table maps key ids to keys; `operation` is a history field
 that says for which credential operation the control plane minted the key.
 */
module TenantKeys {
  import opened Prelude
  import opened Expiry

  const MERCHANT_KEY_NAME := "cloud-merchant"

  type KeyId = string

  datatype ApiKey = ApiKey(name: string, active: bool, expires: Option<int>, operation: Option<string>)

  type Table = map<KeyId, ApiKey>

  datatype AccessError = ValidationFailed | NotFound | Inactive

  datatype Rotation = Rotation(table: Table, replacedExpires: int)

  /** The key authenticates. */
  predicate Live(key: ApiKey, now: int) {
    key.active && !Expired(key.expires, now)
  }

  predicate Standing(key: ApiKey) {
    key.name == MERCHANT_KEY_NAME && key.active && key.expires.None?
  }

  predicate IsStanding(table: Table, id: KeyId) {
    id in table && Standing(table[id])
  }

  ghost predicate AtMostOneStanding(table: Table) {
    forall a, b :: IsStanding(table, a) && IsStanding(table, b) ==> a == b
  }

  ghost predicate NoneStanding(table: Table) {
    forall id :: !IsStanding(table, id)
  }

  function Create(table: Table, newKey: KeyId, name: string, expires: Option<int>, operation: Option<string>): Table {
    table[newKey := ApiKey(name, true, expires, operation)]
  }

  function Rotate(table: Table, id: KeyId, overlapSeconds: Option<int>, requested: Option<int>,
                  newKey: KeyId, operation: Option<string>, now: int): Result<Rotation, AccessError> {
    var seconds := if overlapSeconds.Some? then overlapSeconds.value else DEFAULT_ROTATION_OVERLAP_SECONDS;
    if !ValidOverlap(seconds) then Err(ValidationFailed)
    else if Expired(requested, now) then Err(ValidationFailed)
    else if id !in table then Err(NotFound)
    else
      var existing := table[id];
      if !Live(existing, now) then Err(Inactive)
      else if Extends(existing.expires, requested) then Err(ValidationFailed)
      else
        var replacement := ApiKey(existing.name, true, ReplacementExpiry(existing.expires, requested), operation);
        var replacedExpires := ReplacedExpiry(existing.expires, now, seconds);
        Ok(Rotation(table[id := existing.(expires := Some(replacedExpires))][newKey := replacement], replacedExpires))
  }

  /** Revoking an inactive key changes nothing; a missing key is an error of the caller. */
  function Revoke(table: Table, id: KeyId): Table {
    if id in table then table[id := table[id].(active := false)] else table
  }

  /**
   Which rotations are refused, and what the others do: the old key ends with the overlap (a day
   unless another is asked for) or at its own expiry if that is earlier, the new one has its name
   and ends when asked or when the old one would have, and no other key changes.
   */
  lemma RotatesExactly(table: Table, id: KeyId, overlapSeconds: Option<int>, requested: Option<int>,
                       newKey: KeyId, operation: Option<string>, now: int)
    requires newKey !in table
    ensures var seconds := if overlapSeconds.Some? then overlapSeconds.value else 86_400;
            var wellFormed := 0 <= seconds <= 604_800 && (requested.Some? ==> now < requested.value);
            var usable := id in table && table[id].active && (table[id].expires.Some? ==> now < table[id].expires.value);
            var later := id in table && requested.Some? && table[id].expires.Some? && table[id].expires.value < requested.value;
            match Rotate(table, id, overlapSeconds, requested, newKey, operation, now)
            case Err(NotFound) => wellFormed && id !in table
            case Err(Inactive) => wellFormed && id in table && !usable
            case Err(ValidationFailed) => !wellFormed || (usable && later)
            case Ok(rotation) =>
              && wellFormed && usable && !later && rotation.table.Keys == table.Keys + {newKey}
              && (forall other :: other in table && other != id ==> rotation.table[other] == table[other])
              && rotation.table[id] == table[id].(expires := Some(rotation.replacedExpires))
              && rotation.replacedExpires <= now + seconds * 1_000
              && (table[id].expires.Some? ==> rotation.replacedExpires <= table[id].expires.value)
              && (rotation.replacedExpires == now + seconds * 1_000 || table[id].expires == Some(rotation.replacedExpires))
              && rotation.table[newKey]
                 == ApiKey(table[id].name, true, if requested.Some? then requested else table[id].expires, operation)
  {
  }

  /** Rotating the standing key moves the standing lineage to the replacement. */
  lemma RotationMovesStanding(table: Table, id: KeyId, overlapSeconds: Option<int>, requested: Option<int>,
                              newKey: KeyId, operation: Option<string>, now: int)
    requires AtMostOneStanding(table) && newKey !in table
    requires Rotate(table, id, overlapSeconds, requested, newKey, operation, now).Ok?
    ensures var after := Rotate(table, id, overlapSeconds, requested, newKey, operation, now).value.table;
            && AtMostOneStanding(after)
            && (IsStanding(table, id) && requested.None? ==> IsStanding(after, newKey))
            && !IsStanding(after, id)
  {
    var after := Rotate(table, id, overlapSeconds, requested, newKey, operation, now).value.table;
    assert forall other :: IsStanding(after, other) && other != newKey ==> IsStanding(table, other) && other != id;
    assert IsStanding(after, newKey) ==> IsStanding(table, id);
  }

  /** A rotation with zero overlap ends the life of the key it rotates, and of no other. */
  lemma ZeroOverlapKillsExactlyTheRotatedKey(table: Table, id: KeyId, newKey: KeyId, operation: Option<string>, now: int, orphan: KeyId)
    requires Rotate(table, id, Some(0), None, newKey, operation, now).Ok? && newKey !in table
    requires orphan in table && Live(table[orphan], now)
    ensures var after := Rotate(table, id, Some(0), None, newKey, operation, now).value.table;
            orphan in after && (Live(after[orphan], now) <==> orphan != id)
  {
  }
}
