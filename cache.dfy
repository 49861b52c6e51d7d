/**
 * The fetch cache policies of `src/lib/cache.ts`: three fixed option sets
 * and the selector that picks one for a kind of content.
 */
module Cache {
  import opened Wrappers

  /** The `cache` mode handed to `fetch`. */
  datatype CacheMode = ForceCache | NoStore

  /** `{ cache, next: { revalidate } }`, with `revalidate` in seconds. */
  datatype CacheOptions = CacheOptions(cache: CacheMode, revalidate: nat)

  /** `DEFAULT_CACHE_OPTIONS`: cached, refreshed every five minutes. */
  const DefaultCacheOptions := CacheOptions(ForceCache, 300)

  /** `STATIC_ASSET_CACHE_OPTIONS`: cached, refreshed once a year. */
  const StaticAssetCacheOptions := CacheOptions(ForceCache, 31536000)

  /** `NO_CACHE_OPTIONS`: never stored. */
  const NoCacheOptions := CacheOptions(NoStore, 0)

  /**
   * `getCacheOptions(contentType = 'dynamic')`: "static" and "never" select
   * their own options; a missing argument, "dynamic" and any other string fall
   * to the default.
   */
  function GetCacheOptions(contentType: Option<string>): (r: CacheOptions)
    ensures r.cache == NoStore <==> contentType == Some("never")
    ensures r.revalidate == 31536000 <==> contentType == Some("static")
    ensures contentType != Some("never") && contentType != Some("static") ==> r.revalidate == 5 * 60
    ensures r.cache == NoStore <==> r.revalidate == 0
  {
    match contentType.GetOr("dynamic")
    case "static" => StaticAssetCacheOptions
    case "never" => NoCacheOptions
    case _ => DefaultCacheOptions
  }
}
