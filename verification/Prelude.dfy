/** Result types shared by every component of the model. */
module Prelude {
  datatype Option<+T> = None | Some(value: T)

  datatype Result<+T, +E> = Ok(value: T) | Err(error: E)
}

/**
 Key lifetimes.  Instants are integer milliseconds; a key without an expiry lives
 until it is revoked, so `None` is the latest expiry of all.
 */
module Expiry {
  import opened Prelude

  const DEFAULT_ROTATION_OVERLAP_SECONDS: int := 86_400
  const MAX_ROTATION_OVERLAP_SECONDS: int := 604_800

  predicate NotLater(a: Option<int>, b: Option<int>) {
    b.None? || (a.Some? && a.value <= b.value)
  }

  predicate Expired(expires: Option<int>, now: int) {
    expires.Some? && expires.value <= now
  }

  predicate ValidOverlap(seconds: int) {
    0 <= seconds <= MAX_ROTATION_OVERLAP_SECONDS
  }

  /** The end of life of a rotated key: never past the overlap window, never past its own expiry. */
  function ReplacedExpiry(existing: Option<int>, now: int, overlapSeconds: int): (end: int)
    ensures NotLater(Some(end), existing) && end <= now + overlapSeconds * 1_000
    ensures end == now + overlapSeconds * 1_000 || existing == Some(end)
  {
    var overlapEnd := now + overlapSeconds * 1_000;
    if existing.Some? && existing.value < overlapEnd then existing.value else overlapEnd
  }

  /** The end of life of the new key: the one that was asked for, or else the old key's. */
  function ReplacementExpiry(existing: Option<int>, requested: Option<int>): Option<int> {
    if requested.Some? then requested else existing
  }

  predicate Extends(existing: Option<int>, requested: Option<int>) {
    requested.Some? && existing.Some? && requested.value > existing.value
  }
}

/** Sizes of sets. */
module Sets {
  lemma {:induction false} SubsetSize<T>(a: set<T>, b: set<T>)
    requires a <= b
    ensures |a| <= |b|
  {
    if a != {} {
      var x :| x in a;
      SubsetSize(a - {x}, b - {x});
    }
  }
}
