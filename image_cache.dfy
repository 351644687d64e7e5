/**
 * The remote-image cache: a per-user quota record with a rolling window, and a
 * manager that serves an image from its cache or fetches, validates, stores and
 * charges it. Clock readings, the network fetch and the byte store's accept/reject
 * verdict come in as parameters; one call runs at a time.
 */
module ImageCache {
  import opened Wrappers
  import opened Primitives

  /** The errors `get_image_by_url` reports. */
  datatype Error = UrlIsUnreachable | UrlIsNotAnImage | ImageTooBig | UserQuotaMet

  /**
   * How many bytes one user may cause to be fetched within a window of
   * `periodSecs` seconds that began at `dateStartSecs`.
   */
  class ImageCacheQuota {
    var userId: UserId
    var usage: Usize
    var maxUsage: Usize
    var dateStartSecs: U64
    var periodSecs: U64

    /** `ImageCacheQuota::new`, with `now` the clock reading taken there. */
    constructor (userId: UserId, maxUsage: Usize, periodSecs: U64, now: U64)
      ensures this.userId == userId && this.maxUsage == maxUsage && this.periodSecs == periodSecs
      ensures usage == 0 && dateStartSecs == now
    {
      this.userId := userId;
      usage := 0;
      this.maxUsage := maxUsage;
      dateStartSecs := now;
      this.periodSecs := periodSecs;
    }

    /**
     * `met`: the window's allowance is used up. A zero ceiling is met from the start,
     * and a usage saturated at the word's maximum meets every ceiling.
     */
    predicate Met()
      reads this
      ensures maxUsage == 0 ==> Met()
      ensures usage as int == USIZE_MAX ==> Met()
    {
      usage >= maxUsage
    }

    /** More than `periodSecs` seconds have passed since the window began. */
    predicate Expired(now: U64)
      reads this
      requires dateStartSecs <= now
    {
      now - dateStartSecs > periodSecs
    }

    /** The usage that counts at `now`: none once the window has expired. */
    function UsageAt(now: U64): Usize
      reads this
      requires dateStartSecs <= now
    {
      if Expired(now) then 0 else usage
    }

    /** `reset`: start a new, empty window at `now`. */
    method Reset(now: U64)
      modifies this`usage, this`dateStartSecs
      ensures usage == 0 && dateStartSecs == now
    {
      usage := 0;
      dateStartSecs := now;
    }

    /**
     * `add_usage`: an expired window is reset first; the charge is then refused when
     * the allowance is met, and otherwise added with saturation. So an expired quota
     * accepts a charge even if it was met (provided its ceiling is not zero), an
     * unexpired met quota refuses and stays exactly as it was, and a successful
     * charge never lowers the window's usage.
     */
    method AddUsage(amount: Usize, now: U64) returns (r: Result<(), ()>)
      requires dateStartSecs <= now
      modifies this`usage, this`dateStartSecs
      ensures dateStartSecs == if old(Expired(now)) then now else old(dateStartSecs)
      ensures r.Ok? <==> old(UsageAt(now)) < maxUsage
      ensures usage == if r.Ok? then SaturatingAdd(old(UsageAt(now)), amount) else old(UsageAt(now))
      ensures old(Expired(now)) && 0 < maxUsage ==> r.Ok?
      ensures !old(Expired(now)) && old(Met()) ==>
        r.Err? && usage == old(usage) && dateStartSecs == old(dateStartSecs)
      ensures r.Ok? ==> old(UsageAt(now)) <= usage && amount <= usage
    {
      if now - dateStartSecs > periodSecs {
        Reset(now);
      }
      if Met() {
        return Err(());
      }
      usage := SaturatingAdd(usage, amount);
      return Ok(());
    }

    /** The `Clone` derive: a new record with the same field values. */
    method Clone() returns (copy: ImageCacheQuota)
      ensures fresh(copy)
      ensures copy.userId == userId && copy.usage == usage && copy.maxUsage == maxUsage
      ensures copy.dateStartSecs == dateStartSecs && copy.periodSecs == periodSecs
    {
      copy := new ImageCacheQuota(userId, maxUsage, periodSecs, dateStartSecs);
      copy.usage := usage;
    }
  }

  datatype ImageCacheManagerConfig = ImageCacheManagerConfig(maxImageRequestTimeoutMs: U64, maxImageSize: Usize)

  /**
   * What the network request for a URL produced: no response at all (transport
   * failure or timeout), or a response with its optional `Content-Type` header and
   * its body, `None` when reading the body failed.
   */
  datatype FetchOutcome =
    | Unreachable
    | Responded(contentType: Option<string>, body: Option<seq<Byte>>)

  /** The declared media type is one the manager accepts as an image. */
  predicate IsImageContentType(contentType: Option<string>)
    ensures IsImageContentType(contentType) ==> contentType.Some? && contentType.value in {"image/jpeg", "image/png"}
  {
    contentType == Some("image/jpeg") || contentType == Some("image/png")
  }

  /** The response carries an image body that was read completely. */
  predicate DeliveredImage(fetch: FetchOutcome) {
    fetch.Responded? && IsImageContentType(fetch.contentType) && fetch.body.Some?
  }

  class ImageCacheManager {
    /** The byte store's entries, keyed by source URL. */
    var imageCache: map<string, seq<Byte>>
    var userQuotas: map<UserId, ImageCacheQuota>
    const config: ImageCacheManagerConfig

    /** `ImageCacheManager::new`: the given store, and no quota record for anyone. */
    constructor (bytesCache: map<string, seq<Byte>>, config: ImageCacheManagerConfig)
      ensures imageCache == bytesCache && userQuotas == map[] && this.config == config
    {
      imageCache := bytesCache;
      userQuotas := map[];
      this.config := config;
    }

    /** The user has a quota record and its allowance is used up. */
    predicate QuotaMet(userId: UserId)
      reads this, userQuotas.Values
    {
      userId in userQuotas && userQuotas[userId].Met()
    }

    /**
     * `get_image_by_url`. A cached URL is served from the cache whatever the user's
     * quota. On a miss the first failing step decides the error — a met quota before
     * any fetch, then the transport, the media type or body read, the size limit
     * (an image of exactly `maxImageSize` bytes passes) and the store's verdict — and
     * a failure leaves the cache as it was. On success the fetched bytes are returned
     * and cached under `url`. The usage charge goes to a copy of the user's record,
     * so no stored quota record ever changes.
     */
    method GetImageByUrl(userId: UserId, url: string, fetch: FetchOutcome, storeAccepts: bool, now: U64)
      returns (r: Result<seq<Byte>, Error>)
      requires userId in userQuotas ==> userQuotas[userId].dateStartSecs <= now
      modifies this`imageCache
      ensures userQuotas == old(userQuotas)
      ensures forall u | u in userQuotas :: unchanged(userQuotas[u])
      ensures url in old(imageCache) ==> r == Ok(old(imageCache)[url]) && imageCache == old(imageCache)
      ensures r == Err(UserQuotaMet) <==> url !in old(imageCache) && QuotaMet(userId)
      ensures r == Err(UrlIsUnreachable) <==>
        url !in old(imageCache) && !QuotaMet(userId) && fetch.Unreachable?
      ensures r == Err(UrlIsNotAnImage) <==>
        url !in old(imageCache) && !QuotaMet(userId) && fetch.Responded? && !DeliveredImage(fetch)
      ensures r == Err(ImageTooBig) <==>
        url !in old(imageCache) && !QuotaMet(userId) && DeliveredImage(fetch) &&
        (|fetch.body.value| > config.maxImageSize as int || !storeAccepts)
      ensures url !in old(imageCache) && r.Ok? ==>
        DeliveredImage(fetch) && r.value == fetch.body.value && |r.value| <= config.maxImageSize as int &&
        imageCache == old(imageCache)[url := r.value]
      ensures r.Err? ==> imageCache == old(imageCache)
    {
      if url in imageCache {
        return Ok(imageCache[url]);
      }

      if userId in userQuotas {
        var quota := userQuotas[userId];
        if quota.Met() {
          return Err(UserQuotaMet);
        }
      }

      if fetch.Unreachable? {
        return Err(UrlIsUnreachable);
      }

      match fetch.contentType {
        case Some(contentType) =>
          if contentType != "image/jpeg" && contentType != "image/png" {
            return Err(UrlIsNotAnImage);
          }
        case None =>
          return Err(UrlIsNotAnImage);
      }

      if fetch.body.None? {
        return Err(UrlIsNotAnImage);
      }
      var imageBytes := fetch.body.value;

      if |imageBytes| > config.maxImageSize as int {
        return Err(ImageTooBig);
      }

      if !storeAccepts {
        return Err(ImageTooBig);
      }
      imageCache := imageCache[url := imageBytes];

      if userId in userQuotas {
        var quota := userQuotas[userId].Clone();
        var _ := quota.AddUsage(|imageBytes| as Usize, now);
      }

      return Ok(imageBytes);
    }
  }

  /** One call of `get_image_by_url`, with what the outside world answers. */
  datatype ImageRequest = ImageRequest(
    userId: UserId, url: string, fetch: FetchOutcome, storeAccepts: bool, now: U64)

  /**
   * Any number of requests served in turn by a fresh manager. Since nothing ever
   * inserts a quota record, no request is refused for quota; and once a URL has been
   * served successfully, every later request for it returns the same bytes.
   */
  method ServeRequests(
    bytesCache: map<string, seq<Byte>>, config: ImageCacheManagerConfig, requests: seq<ImageRequest>)
    returns (results: seq<Result<seq<Byte>, Error>>)
    ensures |results| == |requests|
    ensures forall i :: 0 <= i < |results| ==> results[i] != Err(UserQuotaMet)
    ensures forall i, j :: 0 <= i < j < |results| && requests[i].url == requests[j].url && results[i].Ok? ==>
      results[j] == results[i]
  {
    var manager := new ImageCacheManager(bytesCache, config);
    results := [];
    var k := 0;
    while k < |requests|
      invariant 0 <= k <= |requests| && |results| == k
      invariant manager.userQuotas == map[]
      invariant forall i :: 0 <= i < k ==> results[i] != Err(UserQuotaMet)
      invariant forall i :: 0 <= i < k && results[i].Ok? ==>
        requests[i].url in manager.imageCache && manager.imageCache[requests[i].url] == results[i].value
      invariant forall i, j :: 0 <= i < j < k && requests[i].url == requests[j].url && results[i].Ok? ==>
        results[j] == results[i]
    {
      var request := requests[k];
      var r := manager.GetImageByUrl(request.userId, request.url, request.fetch, request.storeAccepts, request.now);
      results := results + [r];
      k := k + 1;
    }
  }

  /**
   * Two requests for the same URL against a fresh manager: once the first has
   * fetched and stored the image, the second is a cache hit that returns the same
   * bytes whatever its own fetch would have produced; and since a fresh manager holds
   * no quota records, neither request is refused for quota.
   */
  method RepeatedRequestIsServedFromCache(
    bytesCache: map<string, seq<Byte>>, config: ImageCacheManagerConfig,
    userId: UserId, url: string,
    fetch: FetchOutcome, storeAccepts: bool, now: U64,
    laterFetch: FetchOutcome, laterStoreAccepts: bool, later: U64)
    returns (first: Result<seq<Byte>, Error>, second: Result<seq<Byte>, Error>)
    ensures first.Ok? ==> second == first
    ensures first != Err(UserQuotaMet) && second != Err(UserQuotaMet)
    ensures url !in bytesCache && first.Ok? ==> DeliveredImage(fetch) && first.value == fetch.body.value
  {
    var manager := new ImageCacheManager(bytesCache, config);
    first := manager.GetImageByUrl(userId, url, fetch, storeAccepts, now);
    second := manager.GetImageByUrl(userId, url, laterFetch, laterStoreAccepts, later);
  }
}
