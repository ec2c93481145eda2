/** The value the listing handler keeps under the cache key `'urls'`
    (server.js:37-48): a snapshot of the store's listing and the time at which
    the cache drops it. Time is an explicit clock in whole seconds. */
module ListingCache {
  import opened Wrappers
  import opened UrlRecords

  /** The one key the listing handler reads and writes. */
  const CacheKey: string := "urls"

  /** The `EX` option of the cache write: the entry lives for one hour. */
  const ExpirySeconds: nat := 3600

  datatype CacheEntry = CacheEntry(snapshot: seq<Record>, expiresAt: int)

  /** A cache GET at time `now`: an entry whose expiry time has come is
      treated as absent. The serialised snapshot is a JSON array, never the
      empty string, so a present entry is always truthy for the handler, even
      when it holds an empty listing. */
  function Lookup(entry: Option<CacheEntry>, now: int): (hit: Option<seq<Record>>)
    ensures hit.Some? ==> entry.Some? && now < entry.value.expiresAt && hit.value == entry.value.snapshot
    ensures entry.Some? && now < entry.value.expiresAt ==> hit.Some?
  {
    if entry.Some? && now < entry.value.expiresAt then Some(entry.value.snapshot) else None
  }

  /** The entry a cache SET with `EX: 3600` creates at time `now`. */
  function Fill(listing: seq<Record>, now: int): (e: CacheEntry)
    ensures forall t :: now <= t < now + ExpirySeconds ==> Lookup(Some(e), t) == Some(listing)
    ensures forall t :: now + ExpirySeconds <= t ==> Lookup(Some(e), t) == None
  {
    CacheEntry(listing, now + ExpirySeconds)
  }

  /** Cache round trip: a listing written at time `t` is read back unchanged at
      every time in [t, t + 3600) and is gone from t + 3600 on. */
  lemma FillThenLookup(listing: seq<Record>, t: int, now: int)
    requires t <= now
    ensures Lookup(Some(Fill(listing, t)), now) == Some(listing) <==> now < t + ExpirySeconds
    ensures Lookup(Some(Fill(listing, t)), now) == None <==> now >= t + ExpirySeconds
  {
  }
}
