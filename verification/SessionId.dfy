/** Generation of a fresh SessionID (src/session.c). */
module SessionId {
  import opened Messages

  const MAX_DISTINCT_ATTEMPTS: nat := 8

  /** Draw number k (from zero) ends the loop: it is non-zero, and differs from the current identifier
      unless the attempt limit has been reached. */
  predicate Acceptable(draw: Sid, current: Option<Sid>, k: nat) {
    draw != ZERO_SID && (current != Some(draw) || k + 1 >= MAX_DISTINCT_ATTEMPTS)
  }

  /** jpv2g_generate_session_id. `draws` is what the random provider will return, None being a provider
      failure; running past the end is a failure as well. */
  method Generate(current: Option<Sid>, draws: seq<Option<Sid>>) returns (id: Option<Sid>, attempts: nat)
    ensures attempts <= |draws|
    ensures forall k :: 0 <= k < attempts - 1 ==> draws[k].Some? && !Acceptable(draws[k].value, current, k)
    ensures id.Some? ==> attempts > 0 && draws[attempts - 1] == id && Acceptable(id.value, current, attempts - 1)
    ensures id.None? && attempts == 0 ==> draws == []
    ensures id.None? && attempts > 0 && draws[attempts - 1].Some? ==>
      attempts == |draws| && !Acceptable(draws[attempts - 1].value, current, attempts - 1)
    ensures id.Some? ==> id.value != ZERO_SID
    ensures id.Some? && id == current ==> attempts >= 8
  {
    attempts := 0;
    while attempts < |draws|
      invariant 0 <= attempts <= |draws|
      invariant forall k :: 0 <= k < attempts ==> draws[k].Some? && !Acceptable(draws[k].value, current, k)
    {
      var candidate := draws[attempts];
      attempts := attempts + 1;
      if candidate.None? { return None, attempts; }
      if candidate.value != ZERO_SID && !(current == candidate && attempts < MAX_DISTINCT_ATTEMPTS) {
        return candidate, attempts;
      }
    }
    return None, attempts;
  }
}
