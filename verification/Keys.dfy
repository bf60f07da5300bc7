/** Idempotency keys, as the services look them up. */
module Keys {
  import opened Options

  /** An empty key is falsy: it is stored, but never looked up. */
  predicate Usable(key: Option<string>) { key.Some? && key.value != "" }

  /** The first row a lookup meets. */
  function First<T>(rows: seq<T>, matches: T -> bool): (i: nat)
    requires exists k :: 0 <= k < |rows| && matches(rows[k])
    ensures i < |rows| && matches(rows[i]) && forall k | 0 <= k < i :: !matches(rows[k])
  {
    if matches(rows[0]) then 0
    else
      assert forall k | 0 < k < |rows| :: rows[k] == rows[1..][k - 1];
      1 + First(rows[1..], matches)
  }
}
