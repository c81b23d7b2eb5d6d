/** The authorizer's server-side revocation check, one instance of it.

    A check either answers from the instance's cache or reads the member's revocation marker. The
    read is awaited, so a check that reads is two atomic sections with other checks in between:
    `Lookup`, which remembers the entry it saw, and `ReadSucceeded` or `ReadFailed`. */
module RevocationCheck {
  import opened MemberStatus

  const CACHE_TTL_MS := 30_000
  const FAILURE_BACKOFF_MS := 5_000
  const MAX_CACHE_ENTRIES := 5_000

  datatype Decision = Allow | Revoked | Unavailable

  /** `revokedAt` is in seconds; `known` is false when no read has ever succeeded. */
  datatype Entry = Entry(revokedAt: Option<int>, known: bool, expiresAtMs: int)

  /** The marker, in seconds, covers every token issued at or before it. */
  predicate Covers(marker: Option<int>, issuedAt: int) {
    marker.Some? && issuedAt <= marker.value
  }

  /** A token minted in the second of the revocation counts as minted before it. */
  function Decide(revokedAt: Option<int>, issuedAt: int): Decision {
    if Covers(revokedAt, issuedAt) then Revoked else Allow
  }

  /** The cached entry answers the check without a read. */
  predicate Usable(cached: Option<Entry>, forceRead: bool, nowMs: int) {
    cached.Some? && !forceRead && nowMs < cached.value.expiresAtMs
  }

  function FromCache(cached: Entry, issuedAt: int): Decision {
    if cached.known then Decide(cached.revokedAt, issuedAt) else Unavailable
  }

  function EntryAfterRead(revokedAt: Option<int>, nowMs: int): Entry {
    Entry(revokedAt, true, nowMs + CACHE_TTL_MS)
  }

  /** A failed read keeps what the check had seen in the cache before it started reading. */
  function EntryAfterFailure(cached: Option<Entry>, nowMs: int): Entry {
    if cached.Some? then Entry(cached.value.revokedAt, cached.value.known, nowMs + FAILURE_BACKOFF_MS)
    else Entry(None, false, nowMs + FAILURE_BACKOFF_MS)
  }

  function AfterFailure(cached: Option<Entry>, issuedAt: int): Decision {
    if cached.Some? then FromCache(cached.value, issuedAt) else Unavailable
  }

  /** Whether the request goes through: an alerting-plane route fails open. */
  predicate Admits(decision: Decision, failOpen: bool) {
    decision == Allow || (decision == Unavailable && failOpen)
  }

  datatype LookupResult = Answered(decision: Decision) | ReadMarker(cached: Option<Entry>)

  class RevocationChecker {
    var cache: map<string, Entry>

    constructor ()
      ensures cache == map[]
    {
      cache := map[];
    }

    function Cached(key: string): Option<Entry>
      reads this
    {
      if key in cache then Some(cache[key]) else None
    }

    method Lookup(key: string, issuedAt: int, forceRead: bool, nowMs: int) returns (r: LookupResult)
      ensures r.Answered? <==> key in cache && !forceRead && nowMs < cache[key].expiresAtMs
      ensures r.Answered? ==>
        r.decision == if !cache[key].known then Unavailable
                      else match cache[key].revokedAt
                        case Some(revokedAt) => if issuedAt <= revokedAt then Revoked else Allow
                        case None => Allow
      ensures r.ReadMarker? ==> r.cached == if key in cache then Some(cache[key]) else None
    {
      var cached := Cached(key);
      if cached.Some? && !forceRead && nowMs < cached.value.expiresAtMs {
        return Answered(if cached.value.known then Decide(cached.value.revokedAt, issuedAt) else Unavailable);
      }
      return ReadMarker(cached);
    }

    /** A full cache is emptied before the entry goes in, whatever key it is for. */
    method ReadSucceeded(key: string, revokedAt: Option<int>, issuedAt: int, nowMs: int) returns (d: Decision)
      modifies this
      ensures d == Revoked <==> revokedAt.Some? && issuedAt <= revokedAt.value
      ensures d == Allow <==> (revokedAt.Some? ==> issuedAt > revokedAt.value)
      ensures Cached(key) == Some(Entry(revokedAt, true, nowMs + 30_000))
      ensures forall other :: other != key ==>
        Cached(other) == if |old(cache)| >= 5_000 then None else old(Cached(other))
    {
      if |cache| >= MAX_CACHE_ENTRIES {
        cache := map[];
      }
      cache := cache[key := EntryAfterRead(revokedAt, nowMs)];
      return Decide(revokedAt, issuedAt);
    }

    method ReadFailed(key: string, cached: Option<Entry>, issuedAt: int, nowMs: int)
      returns (d: Decision, staleUsed: bool)
      modifies this
      ensures staleUsed <==> cached.Some? && cached.value.known
      ensures d == if !staleUsed then Unavailable
                   else match cached.value.revokedAt
                     case Some(revokedAt) => if issuedAt <= revokedAt then Revoked else Allow
                     case None => Allow
      ensures key in cache && cache[key].expiresAtMs == nowMs + 5_000 && cache[key].known == staleUsed
      ensures cache[key].revokedAt == if cached.Some? then cached.value.revokedAt else None
      ensures forall other :: other != key ==> Cached(other) == old(Cached(other))
    {
      staleUsed := cached.Some? && cached.value.known;
      cache := cache[key := EntryAfterFailure(cached, nowMs)];
      d := if staleUsed then Decide(cached.value.revokedAt, issuedAt) else Unavailable;
    }
  }
}
