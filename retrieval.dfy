/**
  The retrieval manager of ipfs-client/src/retrieval.rs: a cache of fetched content with a
  time-to-live and per-entry access counters, changed in place by lookups (count bumped,
  expired entry evicted) and by fetches (new entry inserted), plus batch retrieval, content
  verification and cache statistics. The clock reading, the IPFS `cat` reply and the serde
  parsers are parameters.
 */
module Retrieval {
  import opened Types
  import opened Wrappers
  import opened IpfsErrors
  import opened IpfsClient
  import Strings
  import Did
  import Vc

  /** The default time-to-live, one hour in seconds. */
  const DefaultTtl: int := 3600

  /** `serde_json::from_slice` into each of the types the manager reads back; an error is its message. */
  datatype Parsers = Parsers(
    json: Bytes -> Result<Json, string>,
    didDocument: Bytes -> Result<Did.DidDocument, string>,
    credential: Bytes -> Result<Vc.VerifiableCredential, string>,
    presentation: Bytes -> Result<Vc.VerifiablePresentation, string>)

  /** `CachedContent`; the counter is unbounded here. */
  datatype CachedContent = CachedContent(data: Bytes, contentType: ContentType, cachedAt: Timestamp, accessCount: nat)

  /** `RetrievalOptions`; the timeout (in seconds) and `verify_integrity` are carried but never consulted. */
  datatype RetrievalOptions = RetrievalOptions(useCache: bool, timeout: Option<nat>, verifyIntegrity: bool)

  datatype BatchRetrieval = BatchRetrieval(hashes: seq<string>, options: RetrievalOptions)

  datatype BatchRetrievalResult = BatchRetrievalResult(
    successful: map<string, Json>,
    failed: map<string, string>,
    cacheHits: nat,
    cacheMisses: nat)

  datatype VerificationResult = VerificationResult(
    hash: string,
    isValid: bool,
    contentType: Option<ContentType>,
    size: nat,
    errors: seq<string>)

  datatype CacheStatistics = CacheStatistics(
    totalItems: nat,
    totalSize: nat,
    totalAccessCount: nat,
    averageAccessCount: nat)

  // ---------------------------------------------------------------------------
  // Options and batches
  // ---------------------------------------------------------------------------

  /** `RetrievalOptions::default`: cached, 30-second timeout, no integrity check. */
  function DefaultOptions(): RetrievalOptions {
    RetrievalOptions(true, Some(30), false)
  }

  /** `BatchRetrieval::new`. */
  function NewBatchRetrieval(hashes: seq<string>): (b: BatchRetrieval)
    ensures b.hashes == hashes && b.options.useCache
  {
    BatchRetrieval(hashes, DefaultOptions())
  }

  function WithOptions(b: BatchRetrieval, options: RetrievalOptions): BatchRetrieval {
    b.(options := options)
  }

  /** `without_cache`. */
  function WithoutCache(b: BatchRetrieval): (r: BatchRetrieval)
    ensures !r.options.useCache && r.hashes == b.hashes
  {
    b.(options := b.options.(useCache := false))
  }

  function WithVerification(b: BatchRetrieval): BatchRetrieval {
    b.(options := b.options.(verifyIntegrity := true))
  }

  // ---------------------------------------------------------------------------
  // Content type detection
  // ---------------------------------------------------------------------------

  /** The rule for a DID document: a `@context` and a string `id` starting with `did:`. */
  predicate LooksLikeDidDocument(fields: map<string, Json>) {
    && "@context" in fields
    && "id" in fields
    && fields["id"].Str?
    && Strings.StartsWith(fields["id"].s, "did:")
  }

  /**
    How `detect_content_type` classifies parsed JSON: only objects are classified; the DID
    rule wins over the credential rule, which wins over the presentation rule; any other
    object is metadata.
   */
  function DetectJsonType(json: Json): (r: Option<ContentType>)
    ensures r.None? <==> !json.Object?
    ensures r == Some(DidDocument) <==> json.Object? && LooksLikeDidDocument(json.fields)
    ensures r == Some(VerifiableCredential) <==>
              json.Object? && !LooksLikeDidDocument(json.fields)
              && "@context" in json.fields && "credentialSubject" in json.fields
    ensures r == Some(VerifiablePresentation) <==>
              json.Object? && !LooksLikeDidDocument(json.fields)
              && "@context" in json.fields && "credentialSubject" !in json.fields
              && "verifiableCredential" in json.fields
  {
    match json
    case Object(fields) =>
      if LooksLikeDidDocument(fields) then Some(DidDocument)
      else if "@context" in fields && "credentialSubject" in fields then Some(VerifiableCredential)
      else if "@context" in fields && "verifiableCredential" in fields then Some(VerifiablePresentation)
      else Some(Metadata)
    case _ => None
  }

  /** Detection only ever names the three identity types or metadata. */
  lemma DetectedTypesAreIdentityOrMetadata(json: Json)
    ensures DetectJsonType(json).Some? ==>
              DetectJsonType(json).value in {DidDocument, VerifiableCredential, VerifiablePresentation, Metadata}
  {
  }

  /** An object without `@context` is always metadata, whatever else it holds. */
  lemma NoContextIsMetadata(fields: map<string, Json>)
    requires "@context" !in fields
    ensures DetectJsonType(Object(fields)) == Some(Metadata)
  {
  }

  /** `detect_content_type`: nothing for content that is not JSON. */
  function DetectContentType(parsers: Parsers, content: Bytes): (r: Option<ContentType>)
    ensures parsers.json(content).Failure? ==> r.None?
    ensures parsers.json(content).Success? ==> r == DetectJsonType(parsers.json(content).value)
  {
    match parsers.json(content)
    case Success(json) => DetectJsonType(json)
    case Failure(_) => None
  }

  // ---------------------------------------------------------------------------
  // Cache transitions
  // ---------------------------------------------------------------------------

  /** An entry is fresh while strictly less than `ttl` seconds old. */
  predicate IsFresh(entry: CachedContent, ttl: int, now: Timestamp) {
    now - entry.cachedAt < ttl
  }

  /** Every entry has been accessed at least once. */
  predicate AllCounted(cache: map<string, CachedContent>) {
    forall h :: h in cache ==> cache[h].accessCount >= 1
  }

  /**
    `get_from_cache` at time `now`, as the pair (answer, cache afterwards): a fresh entry is
    returned with its counter bumped (and stored so), an expired one is evicted, an absent
    one leaves the cache alone.
   */
  function CacheLookup(cache: map<string, CachedContent>, ttl: int, hash: string, now: Timestamp)
    : (r: (Option<CachedContent>, map<string, CachedContent>))
    ensures r.0.Some? <==> hash in cache && IsFresh(cache[hash], ttl, now)
    ensures hash !in cache ==> r.1 == cache
    ensures hash in cache && IsFresh(cache[hash], ttl, now) ==>
              && r.0.value == cache[hash].(accessCount := cache[hash].accessCount + 1)
              && r.1 == cache[hash := r.0.value]
    ensures hash in cache && !IsFresh(cache[hash], ttl, now) ==> r.1 == cache - {hash}
  {
    if hash !in cache then (None, cache)
    else
      var entry := cache[hash];
      if IsFresh(entry, ttl, now) then
        var bumped := entry.(accessCount := entry.accessCount + 1);
        (Some(bumped), cache[hash := bumped])
      else (None, cache - {hash})
  }

  /** A lookup touches no other entry. */
  lemma CacheLookupIsLocal(cache: map<string, CachedContent>, ttl: int, hash: string, now: Timestamp, other: string)
    requires other != hash
    ensures var after := CacheLookup(cache, ttl, hash, now).1;
            (other in after <==> other in cache) && (other in cache ==> after[other] == cache[other])
  {
  }

  /** Right after a miss, a second lookup of the same hash misses again and changes nothing. */
  lemma MissThenMiss(cache: map<string, CachedContent>, ttl: int, hash: string, now: Timestamp, later: Timestamp)
    requires CacheLookup(cache, ttl, hash, now).0.None?
    ensures var after := CacheLookup(cache, ttl, hash, now).1;
            CacheLookup(after, ttl, hash, later) == (None, after)
  {
  }

  /** What `get_content_with_cache` returns: a fresh cached copy, else whatever `cat` gave. */
  function FetchedContent(cache: map<string, CachedContent>, ttl: int, hash: string, useCache: bool,
                          now: Timestamp, catReply: Result<Bytes, string>): Result<Bytes, IpfsError>
  {
    if useCache && CacheLookup(cache, ttl, hash, now).0.Some? then Success(cache[hash].data)
    else GetContent(catReply)
  }

  /** The cache after `get_content_with_cache`: a miss that fetched content caches it, counted once. */
  function CacheAfterFetch(parsers: Parsers, cache: map<string, CachedContent>, ttl: int, hash: string,
                           useCache: bool, now: Timestamp, catReply: Result<Bytes, string>)
    : map<string, CachedContent>
  {
    if !useCache then cache
    else
      var (hit, afterLookup) := CacheLookup(cache, ttl, hash, now);
      if hit.Some? || catReply.Failure? then afterLookup
      else
        var content := catReply.value;
        afterLookup[hash := CachedContent(content, DetectContentType(parsers, content).GetOr(Custom("unknown")), now, 1)]
  }

  /** A fresh hit answers from the cache: the `cat` reply is never looked at. */
  lemma FreshHitSkipsFetch(parsers: Parsers, cache: map<string, CachedContent>, ttl: int, hash: string,
                           now: Timestamp, reply: Result<Bytes, string>, otherReply: Result<Bytes, string>)
    requires hash in cache && IsFresh(cache[hash], ttl, now)
    ensures FetchedContent(cache, ttl, hash, true, now, reply) == Success(cache[hash].data)
    ensures FetchedContent(cache, ttl, hash, true, now, reply) == FetchedContent(cache, ttl, hash, true, now, otherReply)
    ensures CacheAfterFetch(parsers, cache, ttl, hash, true, now, reply)
         == CacheAfterFetch(parsers, cache, ttl, hash, true, now, otherReply)
    ensures CacheAfterFetch(parsers, cache, ttl, hash, true, now, reply)[hash].accessCount == cache[hash].accessCount + 1
  {
  }

  /** Without caching the content comes from `cat` and the cache is left as it was. */
  lemma UncachedLeavesCache(parsers: Parsers, cache: map<string, CachedContent>, ttl: int, hash: string,
                            now: Timestamp, reply: Result<Bytes, string>)
    ensures FetchedContent(cache, ttl, hash, false, now, reply) == GetContent(reply)
    ensures CacheAfterFetch(parsers, cache, ttl, hash, false, now, reply) == cache
  {
  }

  /**
    A cached miss that fetches content stores exactly that content, stamped `now`, counted
    once, typed as detected or as `Custom("unknown")`.
   */
  lemma MissCachesFetched(parsers: Parsers, cache: map<string, CachedContent>, ttl: int, hash: string,
                          now: Timestamp, reply: Result<Bytes, string>)
    requires hash !in cache || !IsFresh(cache[hash], ttl, now)
    requires reply.Success?
    ensures FetchedContent(cache, ttl, hash, true, now, reply) == Success(reply.value)
    ensures var entry := CacheAfterFetch(parsers, cache, ttl, hash, true, now, reply)[hash];
            && entry.data == reply.value && entry.cachedAt == now && entry.accessCount == 1
            && entry.contentType == DetectContentType(parsers, reply.value).GetOr(Custom("unknown"))
  {
  }

  /** Lookups and fetches keep every counter at one or more. */
  lemma CacheAfterFetchKeepsCounts(parsers: Parsers, cache: map<string, CachedContent>, ttl: int, hash: string,
                                   useCache: bool, now: Timestamp, reply: Result<Bytes, string>)
    requires AllCounted(cache)
    ensures AllCounted(CacheLookup(cache, ttl, hash, now).1)
    ensures AllCounted(CacheAfterFetch(parsers, cache, ttl, hash, useCache, now, reply))
  {
  }

  // ---------------------------------------------------------------------------
  // Verification verdicts
  // ---------------------------------------------------------------------------

  /** The structure check for a detected type, as an optional error. */
  function StructureError(parsers: Parsers, content: Bytes, detected: ContentType): Option<string> {
    match detected
    case DidDocument =>
      if parsers.didDocument(content).Failure? then Some("Invalid DID document structure: " + parsers.didDocument(content).error)
      else None
    case VerifiableCredential =>
      if parsers.credential(content).Failure? then Some("Invalid credential structure: " + parsers.credential(content).error)
      else None
    case VerifiablePresentation =>
      if parsers.presentation(content).Failure? then Some("Invalid presentation structure: " + parsers.presentation(content).error)
      else None
    case _ =>
      if parsers.json(content).Failure? then Some("Invalid JSON structure: " + parsers.json(content).error) else None
  }

  /** The type-mismatch message. */
  function MismatchMessage(expected: ContentType, detected: ContentType): string {
    "Content type mismatch: expected " + ContentTypeDebug(expected) + ", detected " + ContentTypeDebug(detected)
  }

  /** The errors `verify_content` reports for fetched content, in the order it checks. */
  function VerificationErrors(parsers: Parsers, content: Bytes, expected: Option<ContentType>): seq<string> {
    var detected := DetectContentType(parsers, content);
    (if |content| == 0 then ["Content is empty"] else [])
    + (if expected.Some? && detected.Some? && expected.value != detected.value
       then [MismatchMessage(expected.value, detected.value)] else [])
    + (if detected.Some? && StructureError(parsers, content, detected.value).Some?
       then [StructureError(parsers, content, detected.value).value] else [])
  }

  /**
    Content verifies exactly when it is non-empty, its detected type agrees with an expected
    one when both are known, and it parses as the type detected.
   */
  lemma VerificationErrorsIff(parsers: Parsers, content: Bytes, expected: Option<ContentType>)
    ensures var detected := DetectContentType(parsers, content);
            |VerificationErrors(parsers, content, expected)| == 0 <==>
              && |content| > 0
              && (expected.Some? && detected.Some? ==> expected.value == detected.value)
              && (detected == Some(DidDocument) ==> parsers.didDocument(content).Success?)
              && (detected == Some(VerifiableCredential) ==> parsers.credential(content).Success?)
              && (detected == Some(VerifiablePresentation) ==> parsers.presentation(content).Success?)
  {
    var detected := DetectContentType(parsers, content);
    if detected.Some? {
      DetectedTypesAreIdentityOrMetadata(parsers.json(content).value);
    }
  }

  /** Empty content always fails verification, with the emptiness error first. */
  lemma EmptyContentNeverVerifies(parsers: Parsers, expected: Option<ContentType>)
    ensures var errors := VerificationErrors(parsers, [], expected);
            |errors| > 0 && errors[0] == "Content is empty"
  {
  }

  // ---------------------------------------------------------------------------
  // Cache statistics helpers
  // ---------------------------------------------------------------------------

  function DataTotal(entries: seq<CachedContent>): nat {
    if |entries| == 0 then 0 else DataTotal(entries[..|entries| - 1]) + |entries[|entries| - 1].data|
  }

  function AccessTotal(entries: seq<CachedContent>): nat {
    if |entries| == 0 then 0 else AccessTotal(entries[..|entries| - 1]) + entries[|entries| - 1].accessCount
  }

  /** Entries each accessed at least once account for at least one access apiece. */
  lemma {:induction false} AccessTotalAtLeastCount(entries: seq<CachedContent>)
    ensures (forall i :: 0 <= i < |entries| ==> entries[i].accessCount >= 1) ==> AccessTotal(entries) >= |entries|
  {
    if |entries| > 0 {
      AccessTotalAtLeastCount(entries[..|entries| - 1]);
    }
  }

  /** Integer division of naturals rounds down, and a dividend at least the divisor gives at least one. */
  lemma DivisionBounds(a: nat, b: nat, q: nat)
    requires b > 0 && q == a / b
    ensures q * b <= a < q * b + b
    ensures a >= b ==> q >= 1
  {
    assert a == q * b + a % b;
  }

  /**
    The average number of accesses per entry: the total divided by the entry count, rounded
    down, and 0 when there are no entries.
   */
  function AverageAccess(total: nat, items: nat): (avg: nat)
    ensures items == 0 ==> avg == 0
    ensures items > 0 ==> avg * items <= total < avg * items + items
    ensures items > 0 && total >= items ==> avg >= 1
  {
    if items == 0 then 0
    else
      var q := total / items;
      DivisionBounds(total, items, q);
      q
  }

  /** The distinct hashes among the first `k` of a batch. */
  function HashesSeen(hashes: seq<string>, k: nat): set<string>
    requires k <= |hashes|
  {
    if k == 0 then {} else HashesSeen(hashes, k - 1) + {hashes[k - 1]}
  }

  /** The elements of a longer prefix are those of the shorter one plus the next element. */
  lemma PrefixElementsStep(hashes: seq<string>, i: nat, next: nat)
    requires i < |hashes| && next == i + 1
    ensures (set h | h in hashes[..next]) == (set h | h in hashes[..i]) + {hashes[i]}
  {
    assert hashes[..next] == hashes[..i] + [hashes[i]];
  }

  /** The hashes seen in the first `k` of a batch are exactly the elements of that prefix. */
  lemma {:induction false} HashesSeenElements(hashes: seq<string>, k: nat)
    requires k <= |hashes|
    ensures HashesSeen(hashes, k) == set h | h in hashes[..k]
    decreases k
  {
    if k > 0 {
      HashesSeenElements(hashes, k - 1);
      PrefixElementsStep(hashes, k - 1, k);
    }
  }

  // ---------------------------------------------------------------------------
  // The manager
  // ---------------------------------------------------------------------------

  /** A parse result whose error text is `prefix` followed by the parser's message. */
  function Prefixed(r: Result<Json, string>, prefix: string): (p: Result<Json, string>)
    ensures p.Success? <==> r.Success?
    ensures p.Success? ==> p.value == r.value
    ensures p.Failure? ==> Strings.StartsWith(p.error, prefix) && p.error[|prefix|..] == r.error
  {
    if r.Success? then r else Failure(prefix + r.error)
  }

  /** One hash of a batch retrieval: whether the cache answered it, its outcome, and the cache afterwards. */
  datatype RetrievalStep = RetrievalStep(hit: bool, outcome: Result<Json, string>, cache: map<string, CachedContent>)

  /**
    One hash of `execute_batch_retrieval` against `cache` at time `now`: with the cache on, a fresh
    entry is a hit answered by parsing the cached data; anything else is a miss answered through
    `get_content_with_cache` (`cat` answering `reply`), whose own lookup finds the entry gone.
   */
  function RetrieveStep(parsers: Parsers, cache: map<string, CachedContent>, ttl: int, hash: string,
                        useCache: bool, now: Timestamp, reply: Result<Bytes, string>): (r: RetrievalStep)
    ensures r.hit <==> useCache && hash in cache && IsFresh(cache[hash], ttl, now)
    ensures !useCache ==> r.cache == cache
    ensures !r.hit && reply.Failure? ==> r.outcome.Failure?
  {
    var lookup := CacheLookup(cache, ttl, hash, now);
    if useCache && lookup.0.Some? then
      RetrievalStep(true, Prefixed(parsers.json(lookup.0.value.data), "Cache deserialization error: "), lookup.1)
    else
      var outcome := if reply.Failure? then Failure(GetContent(reply).error.ToString())
                     else Prefixed(parsers.json(reply.value), "Deserialization error: ");
      RetrievalStep(false, outcome,
                    CacheAfterFetch(parsers, if useCache then lookup.1 else cache, ttl, hash, useCache, now, reply))
  }

  /** A retrieval step keeps every cached entry counted. */
  lemma RetrieveStepKeepsCounts(parsers: Parsers, cache: map<string, CachedContent>, ttl: int, hash: string,
                                useCache: bool, now: Timestamp, reply: Result<Bytes, string>)
    requires AllCounted(cache)
    ensures AllCounted(RetrieveStep(parsers, cache, ttl, hash, useCache, now, reply).cache)
  {
    CacheAfterFetchKeepsCounts(parsers, cache, ttl, hash, useCache, now, reply);
    var after := CacheLookup(cache, ttl, hash, now).1;
    CacheAfterFetchKeepsCounts(parsers, after, ttl, hash, useCache, now, reply);
  }

  /** Where a batch retrieval stands: the cache, the two result maps and the hit count. */
  datatype BatchState = BatchState(cache: map<string, CachedContent>, successful: map<string, Json>,
                                   failed: map<string, string>, hits: nat)

  /**
    The state after the first `k` hashes of a batch, hash `i` handled at `nows[i]` with `cat`
    answering `replies[i]`: each outcome is filed under its hash, a later one overriding an
    earlier one in the same map.
   */
  function BatchAfter(parsers: Parsers, ttl: int, useCache: bool, start: map<string, CachedContent>,
                      hashes: seq<string>, nows: seq<Timestamp>, replies: seq<Result<Bytes, string>>, k: nat)
    : (b: BatchState)
    requires k <= |hashes| && |nows| == |hashes| && |replies| == |hashes|
    ensures b.hits <= k
    ensures !useCache ==> b.hits == 0 && b.cache == start
    decreases k
  {
    if k == 0 then BatchState(start, map[], map[], 0)
    else
      var prev := BatchAfter(parsers, ttl, useCache, start, hashes, nows, replies, k - 1);
      var hash := hashes[k - 1];
      FileStep(prev, hash, RetrieveStep(parsers, prev.cache, ttl, hash, useCache, nows[k - 1], replies[k - 1]))
  }

  /** Filing one step: its cache is kept, its outcome goes under `hash` in one of the maps, a hit is counted. */
  function FileStep(b: BatchState, hash: string, step: RetrievalStep): (next: BatchState)
    ensures next.successful.Keys + next.failed.Keys == b.successful.Keys + b.failed.Keys + {hash}
    ensures next.hits == b.hits + (if step.hit then 1 else 0)
  {
    BatchState(step.cache,
               if step.outcome.Success? then b.successful[hash := step.outcome.value] else b.successful,
               if step.outcome.Failure? then b.failed[hash := step.outcome.error] else b.failed,
               b.hits + (if step.hit then 1 else 0))
  }

  /** The state after `k + 1` hashes is the state after `k` with hash `k` retrieved and filed. */
  lemma BatchAfterStep(parsers: Parsers, ttl: int, useCache: bool, start: map<string, CachedContent>,
                       hashes: seq<string>, nows: seq<Timestamp>, replies: seq<Result<Bytes, string>>, k: nat)
    requires k < |hashes| && |nows| == |hashes| && |replies| == |hashes|
    ensures var prev := BatchAfter(parsers, ttl, useCache, start, hashes, nows, replies, k);
            BatchAfter(parsers, ttl, useCache, start, hashes, nows, replies, k + 1)
            == FileStep(prev, hashes[k], RetrieveStep(parsers, prev.cache, ttl, hashes[k], useCache, nows[k], replies[k]))
  {
  }

  /** Every hash handled so far is filed as a success or a failure, and nothing else is. */
  lemma {:induction false} BatchAfterKeys(
    parsers: Parsers, ttl: int, useCache: bool, start: map<string, CachedContent>,
    hashes: seq<string>, nows: seq<Timestamp>, replies: seq<Result<Bytes, string>>, k: nat)
    requires k <= |hashes| && |nows| == |hashes| && |replies| == |hashes|
    ensures var b := BatchAfter(parsers, ttl, useCache, start, hashes, nows, replies, k);
            b.successful.Keys + b.failed.Keys == HashesSeen(hashes, k)
    decreases k
  {
    if k > 0 {
      BatchAfterKeys(parsers, ttl, useCache, start, hashes, nows, replies, k - 1);
      BatchAfterStep(parsers, ttl, useCache, start, hashes, nows, replies, k - 1);
    }
  }

  /** With the cache off, a batch's results do not depend on what the cache held. */
  lemma {:induction false} UncachedBatchIgnoresCache(
    parsers: Parsers, ttl: int, a: map<string, CachedContent>, b: map<string, CachedContent>,
    hashes: seq<string>, nows: seq<Timestamp>, replies: seq<Result<Bytes, string>>, k: nat)
    requires k <= |hashes| && |nows| == |hashes| && |replies| == |hashes|
    ensures BatchAfter(parsers, ttl, false, a, hashes, nows, replies, k).(cache := b)
            == BatchAfter(parsers, ttl, false, b, hashes, nows, replies, k)
    decreases k
  {
    if k > 0 {
      UncachedBatchIgnoresCache(parsers, ttl, a, b, hashes, nows, replies, k - 1);
    }
  }

  class RetrievalManager {
    /** The serde parsers the manager reads content back with. */
    const parsers: Parsers
    var cache: map<string, CachedContent>
    var cacheTtl: int

    /** Every cached entry has been accessed at least once. */
    ghost predicate Valid()
      reads this
    {
      AllCounted(cache)
    }

    /** `RetrievalManager::new`: an empty cache with a one-hour time-to-live. */
    constructor (parsers: Parsers)
      ensures Valid()
      ensures this.parsers == parsers && cache == map[] && cacheTtl == DefaultTtl
    {
      this.parsers := parsers;
      cache := map[];
      cacheTtl := DefaultTtl;
    }

    /** `set_cache_ttl`: later lookups use the new time-to-live; entries are kept. */
    method SetCacheTtl(ttl: int)
      modifies this
      ensures cacheTtl == ttl && cache == old(cache)
    {
      cacheTtl := ttl;
    }

    /** `clear_cache`. */
    method ClearCache()
      modifies this
      ensures cache == map[] && cacheTtl == old(cacheTtl)
      ensures Valid()
    {
      cache := map[];
    }

    /** `get_from_cache` at time `now`. */
    method GetFromCache(hash: string, now: Timestamp) returns (r: Option<CachedContent>)
      modifies this
      ensures (r, cache) == CacheLookup(old(cache), old(cacheTtl), hash, now)
      ensures cacheTtl == old(cacheTtl)
      ensures old(Valid()) ==> Valid()
    {
      if hash in cache {
        var entry := cache[hash];
        if now - entry.cachedAt < cacheTtl {
          entry := entry.(accessCount := entry.accessCount + 1);
          cache := cache[hash := entry];
          return Some(entry);
        } else {
          cache := cache - {hash};
        }
      }
      return None;
    }

    /** `get_content_with_cache` at time `now`, `cat` answering `catReply` if it is asked. */
    method GetContentWithCache(hash: string, useCache: bool, now: Timestamp, catReply: Result<Bytes, string>)
      returns (r: Result<Bytes, IpfsError>)
      modifies this
      ensures r == FetchedContent(old(cache), old(cacheTtl), hash, useCache, now, catReply)
      ensures cache == CacheAfterFetch(parsers, old(cache), old(cacheTtl), hash, useCache, now, catReply)
      ensures cacheTtl == old(cacheTtl)
      ensures old(Valid()) ==> Valid()
    {
      if useCache {
        var cached := GetFromCache(hash, now);
        if cached.Some? {
          return Success(cached.value.data);
        }
      }
      var content :- GetContent(catReply);
      if useCache {
        var contentType := DetectContentType(parsers, content).GetOr(Custom("unknown"));
        cache := cache[hash := CachedContent(content, contentType, now, 1)];
      }
      return Success(content);
    }

    /** `get_did_document`. */
    method GetDidDocument(hash: string, options: RetrievalOptions, now: Timestamp, catReply: Result<Bytes, string>)
      returns (r: Result<Did.DidDocument, IpfsError>)
      modifies this
      ensures var fetched := FetchedContent(old(cache), old(cacheTtl), hash, options.useCache, now, catReply);
              r == (if fetched.Failure? then Failure(fetched.error)
                    else parsers.didDocument(fetched.value).MapFailure(e => StorageError("Failed to parse DID document: " + e)))
      ensures cache == CacheAfterFetch(parsers, old(cache), old(cacheTtl), hash, options.useCache, now, catReply)
      ensures old(Valid()) ==> Valid()
    {
      var content :- GetContentWithCache(hash, options.useCache, now, catReply);
      r := parsers.didDocument(content).MapFailure(e => StorageError("Failed to parse DID document: " + e));
    }

    /** `get_credential`. */
    method GetCredential(hash: string, options: RetrievalOptions, now: Timestamp, catReply: Result<Bytes, string>)
      returns (r: Result<Vc.VerifiableCredential, IpfsError>)
      modifies this
      ensures var fetched := FetchedContent(old(cache), old(cacheTtl), hash, options.useCache, now, catReply);
              r == (if fetched.Failure? then Failure(fetched.error)
                    else parsers.credential(fetched.value).MapFailure(e => StorageError("Failed to parse credential: " + e)))
      ensures cache == CacheAfterFetch(parsers, old(cache), old(cacheTtl), hash, options.useCache, now, catReply)
      ensures old(Valid()) ==> Valid()
    {
      var content :- GetContentWithCache(hash, options.useCache, now, catReply);
      r := parsers.credential(content).MapFailure(e => StorageError("Failed to parse credential: " + e));
    }

    /** `get_presentation`. */
    method GetPresentation(hash: string, options: RetrievalOptions, now: Timestamp, catReply: Result<Bytes, string>)
      returns (r: Result<Vc.VerifiablePresentation, IpfsError>)
      modifies this
      ensures var fetched := FetchedContent(old(cache), old(cacheTtl), hash, options.useCache, now, catReply);
              r == (if fetched.Failure? then Failure(fetched.error)
                    else parsers.presentation(fetched.value).MapFailure(e => StorageError("Failed to parse presentation: " + e)))
      ensures cache == CacheAfterFetch(parsers, old(cache), old(cacheTtl), hash, options.useCache, now, catReply)
      ensures old(Valid()) ==> Valid()
    {
      var content :- GetContentWithCache(hash, options.useCache, now, catReply);
      r := parsers.presentation(content).MapFailure(e => StorageError("Failed to parse presentation: " + e));
    }

    /** `get_json`. */
    method GetJson(hash: string, options: RetrievalOptions, now: Timestamp, catReply: Result<Bytes, string>)
      returns (r: Result<Json, IpfsError>)
      modifies this
      ensures var fetched := FetchedContent(old(cache), old(cacheTtl), hash, options.useCache, now, catReply);
              r == (if fetched.Failure? then Failure(fetched.error)
                    else parsers.json(fetched.value).MapFailure(e => StorageError("Failed to parse JSON: " + e)))
      ensures cache == CacheAfterFetch(parsers, old(cache), old(cacheTtl), hash, options.useCache, now, catReply)
      ensures old(Valid()) ==> Valid()
    {
      var content :- GetContentWithCache(hash, options.useCache, now, catReply);
      r := parsers.json(content).MapFailure(e => StorageError("Failed to parse JSON: " + e));
    }

    /**
      `execute_batch_retrieval`: hash `i` is handled at time `nows[i]`, and `cat` answers
      `replies[i]` if asked. Every hash is either a cache hit or a miss; a hash that appears
      twice can end up in both result maps.
     */
    method ExecuteBatchRetrieval(batch: BatchRetrieval, nows: seq<Timestamp>, replies: seq<Result<Bytes, string>>)
      returns (r: BatchRetrievalResult)
      requires |nows| == |batch.hashes| && |replies| == |batch.hashes|
      modifies this
      ensures var b := BatchAfter(parsers, old(cacheTtl), batch.options.useCache, old(cache),
                                  batch.hashes, nows, replies, |batch.hashes|);
              cache == b.cache && r.successful == b.successful && r.failed == b.failed && r.cacheHits == b.hits
      ensures r.cacheHits + r.cacheMisses == |batch.hashes|
      ensures !batch.options.useCache ==> r.cacheHits == 0 && cache == old(cache)
      ensures r.successful.Keys + r.failed.Keys == set h | h in batch.hashes
      ensures cacheTtl == old(cacheTtl)
      ensures old(Valid()) ==> Valid()
    {
      var successful, failed, cacheHits, cacheMisses := RetrieveAll(batch.hashes, batch.options.useCache, nows, replies);
      assert batch.hashes[..|batch.hashes|] == batch.hashes;
      BatchAfterKeys(parsers, old(cacheTtl), batch.options.useCache, old(cache), batch.hashes, nows, replies, |batch.hashes|);
      HashesSeenElements(batch.hashes, |batch.hashes|);
      r := BatchRetrievalResult(successful, failed, cacheHits, cacheMisses);
    }

    /** The loop of `execute_batch_retrieval`: every hash retrieved and filed in order. */
    method RetrieveAll(hashes: seq<string>, useCache: bool, nows: seq<Timestamp>, replies: seq<Result<Bytes, string>>)
      returns (successful: map<string, Json>, failed: map<string, string>, cacheHits: nat, cacheMisses: nat)
      requires |nows| == |hashes| && |replies| == |hashes|
      modifies this
      ensures BatchState(cache, successful, failed, cacheHits)
              == BatchAfter(parsers, old(cacheTtl), useCache, old(cache), hashes, nows, replies, |hashes|)
      ensures cacheHits + cacheMisses == |hashes|
      ensures cacheTtl == old(cacheTtl)
      ensures old(Valid()) ==> Valid()
    {
      successful, failed, cacheHits, cacheMisses := map[], map[], 0, 0;
      var i := 0;
      while i < |hashes|
        invariant 0 <= i <= |hashes|
        invariant cacheHits + cacheMisses == i
        invariant BatchState(cache, successful, failed, cacheHits)
                  == BatchAfter(parsers, old(cacheTtl), useCache, old(cache), hashes, nows, replies, i)
        invariant cacheTtl == old(cacheTtl)
        invariant old(Valid()) ==> Valid()
      {
        BatchAfterStep(parsers, old(cacheTtl), useCache, old(cache), hashes, nows, replies, i);
        successful, failed, cacheHits, cacheMisses :=
          RetrieveAndFile(hashes[i], useCache, nows[i], replies[i], successful, failed, cacheHits, cacheMisses);
        i := i + 1;
      }
    }

    /** One turn of the `execute_batch_retrieval` loop: retrieve `hash`, file its outcome and count the hit or miss. */
    method RetrieveAndFile(hash: string, useCache: bool, now: Timestamp, reply: Result<Bytes, string>,
                           successful: map<string, Json>, failed: map<string, string>, hits: nat, misses: nat)
      returns (nextSuccessful: map<string, Json>, nextFailed: map<string, string>, nextHits: nat, nextMisses: nat)
      modifies this
      ensures BatchState(cache, nextSuccessful, nextFailed, nextHits)
              == FileStep(BatchState(old(cache), successful, failed, hits), hash,
                          RetrieveStep(parsers, old(cache), old(cacheTtl), hash, useCache, now, reply))
      ensures nextHits + nextMisses == hits + misses + 1
      ensures cacheTtl == old(cacheTtl)
      ensures old(Valid()) ==> Valid()
    {
      var hit, outcome := RetrieveOne(hash, useCache, now, reply);
      nextSuccessful, nextFailed, nextHits, nextMisses := successful, failed, hits, misses;
      if hit {
        nextHits := hits + 1;
      } else {
        nextMisses := misses + 1;
      }
      match outcome {
        case Success(value) => nextSuccessful := successful[hash := value];
        case Failure(message) => nextFailed := failed[hash := message];
      }
    }

    /**
      One turn of the `execute_batch_retrieval` loop at time `now`: with the cache on, a fresh
      entry is a hit answered from the cache; anything else is a miss that fetches through
      `get_content_with_cache` (`cat` answering `reply`). The outcome is the parsed JSON value
      or the text filed under the hash in `failed`.
     */
    method RetrieveOne(hash: string, useCache: bool, now: Timestamp, reply: Result<Bytes, string>)
      returns (hit: bool, outcome: Result<Json, string>)
      modifies this
      ensures RetrievalStep(hit, outcome, cache)
              == RetrieveStep(parsers, old(cache), old(cacheTtl), hash, useCache, now, reply)
      ensures cacheTtl == old(cacheTtl)
      ensures old(Valid()) ==> Valid()
    {
      if useCache {
        var cached := GetFromCache(hash, now);
        if cached.Some? {
          return true, Prefixed(parsers.json(cached.value.data), "Cache deserialization error: ");
        }
        MissThenMiss(old(cache), cacheTtl, hash, now, now);
      }
      var fetched := GetContentWithCache(hash, useCache, now, reply);
      if fetched.Failure? {
        return false, Failure(fetched.error.ToString());
      }
      return false, Prefixed(parsers.json(fetched.value), "Deserialization error: ");
    }

    /**
      `verify_content`: `cat` answering `catReply`; the verdict is valid exactly when no error
      was recorded, and the errors are those of `VerificationErrors`.
     */
    method VerifyContent(hash: string, expectedType: Option<ContentType>, catReply: Result<Bytes, string>)
      returns (r: Result<VerificationResult, IpfsError>)
      ensures r.Failure? <==> catReply.Failure?
      ensures r.Failure? ==> r.error == GetContent(catReply).error
      ensures r.Success? ==>
                var content := catReply.value;
                && r.value.hash == hash
                && r.value.contentType == DetectContentType(parsers, content)
                && r.value.size == |content|
                && r.value.errors == VerificationErrors(parsers, content, expectedType)
                && (r.value.isValid <==> |r.value.errors| == 0)
    {
      var content :- GetContent(catReply);
      var errors: seq<string> := [];
      var isValid := true;
      if |content| == 0 {
        errors := errors + ["Content is empty"];
        isValid := false;
      }
      var detected := DetectContentType(parsers, content);
      ghost var emptiness := errors;
      if expectedType.Some? && detected.Some? && expectedType.value != detected.value {
        errors := errors + [MismatchMessage(expectedType.value, detected.value)];
        isValid := false;
      }
      ghost var mismatch := errors[|emptiness|..];
      assert errors == emptiness + mismatch;
      if detected.Some? {
        var structureError := StructureError(parsers, content, detected.value);
        if structureError.Some? {
          errors := errors + [structureError.value];
          isValid := false;
        }
      }
      ghost var structure := errors[|emptiness + mismatch|..];
      assert errors == emptiness + mismatch + structure;
      return Success(VerificationResult(hash, isValid, detected, |content|, errors));
    }

    /** The cached entries, in the order `order` lists their hashes. */
    function Entries(order: seq<string>): (entries: seq<CachedContent>)
      requires forall h :: h in order ==> h in cache
      reads this
      ensures |entries| == |order| && forall i :: 0 <= i < |order| ==> entries[i] == cache[order[i]]
    {
      seq(|order|, i requires 0 <= i < |order| && order[i] in cache reads this => cache[order[i]])
    }

    /**
      `get_cache_stats`, `order` being the cache's iteration order: the average is the total
      access count divided by the item count, rounded down, and 0 for an empty cache; since
      every entry has been accessed, a non-empty cache averages at least one access.
     */
    function GetCacheStats(order: seq<string>): (s: CacheStatistics)
      requires Enumerates(order, cache.Keys)
      reads this
      ensures s.totalItems == |cache| && s.totalSize == DataTotal(Entries(order))
      ensures s.totalAccessCount == AccessTotal(Entries(order))
      ensures s.averageAccessCount == AverageAccess(s.totalAccessCount, s.totalItems)
      ensures Valid() && s.totalItems > 0 ==> s.averageAccessCount >= 1
    {
      var entries := Entries(order);
      var totalItems := |cache|;
      var totalAccess := AccessTotal(entries);
      EnumerationSize(order, cache.Keys);
      AccessTotalAtLeastCount(entries);
      CacheStatistics(totalItems, DataTotal(entries), totalAccess, AverageAccess(totalAccess, totalItems))
    }
  }
}
