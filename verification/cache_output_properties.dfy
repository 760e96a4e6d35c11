/**
 * Properties that relate several filter calls, or a filter call to the
 * store it leaves behind.
 */
module CacheOutputProperties {
  import opened Wrappers
  import opened CacheTimes
  import opened CacheKeys
  import opened ETags
  import opened CacheOutput

  /** The three keys of one cached response are pairwise different. */
  lemma SuffixedKeysDiffer(sfx: KeySuffixes, key: string)
    requires sfx.Valid()
    ensures key + sfx.contentType != key
    ensures key + sfx.etag != key
    ensures key + sfx.contentType != key + sfx.etag
  {
    assert (key + sfx.contentType)[|key|..] == sfx.contentType;
    assert (key + sfx.etag)[|key|..] == sfx.etag;
  }

  /**
   * Persisting a response stores its body, content type and tag under the
   * key and its two suffixed keys, all with the same expiration, and leaves
   * every other key as it was.
   */
  lemma {:induction false} PersistWritesThreeEntries(sfx: KeySuffixes, key: string, response: Response,
                                                     expiration: int, store: Store)
    requires sfx.Valid() && response.etag.Some?
    ensures var s := ApplyWrites(store, PendingWrites(sfx, key, response, expiration));
      && s.Keys == store.Keys + {key, key + sfx.contentType, key + sfx.etag}
      && s[key] == Entry(Str(response.body), expiration)
      && s[key + sfx.contentType] == Entry(MediaType(response.contentType), expiration)
      && s[key + sfx.etag] == Entry(ETag(response.etag.value), expiration)
      && forall k :: k in store && k !in {key, key + sfx.contentType, key + sfx.etag} ==> s[k] == store[k]
  {
    var ws := PendingWrites(sfx, key, response, expiration);
    SuffixedKeysDiffer(sfx, key);
    assert WrittenKeys(ws) == {key, key + sfx.contentType, key + sfx.etag} by {
      assert ws[0].key == key && ws[1].key == key + sfx.contentType && ws[2].key == key + sfx.etag;
    }
    var s1 := ApplyWrites(store, ws[..1]);
    var s2 := ApplyWrites(store, ws[..2]);
    assert ws[..2][..1] == ws[..1];
    assert ws[..3] == ws;
    assert s2 == s1[key + sfx.contentType := Entry(MediaType(response.contentType), expiration)];
    assert ApplyWrites(store, ws) == s2[key + sfx.etag := Entry(ETag(response.etag.value), expiration)];
  }

  /**
   * A full hit happens exactly when the request is eligible, its key is
   * cached with a string body, no presented tag matches, and the content
   * type entry is a media type or, when absent, the type read back from the
   * key parses.
   */
  lemma HitExactlyWhen(reading: KeyReading, cfg: Config, sfx: KeySuffixes, req: Request, mediaType: string,
                       store: Store, time: CacheTime)
    ensures var key := KeyOf(cfg, req, mediaType);
      OnActionExecuting(reading, cfg, sfx, req, mediaType, store, time).Hit? <==>
      && IsCachingAllowed(req, cfg.anonymousOnly)
      && key in store && store[key].value.Str?
      && !EtagMatches(req.ifNoneMatch, StoredEtag(store, key + sfx.etag))
      && (if key + sfx.contentType in store then store[key + sfx.contentType].value.MediaType?
          else IsMediaTypeSyntax(FallbackContentType(reading, key)))
  {
  }

  /**
   * A request whose key is not cached, eligible or not, runs the action; the
   * response is tagged with the fresh normalised token and its body,
   * content type and tag land under the key and its two suffixed keys.
   */
  lemma MissRunsActionAndWrites(cfg: Config, sfx: KeySuffixes, req: Request, mediaType: string, store: Store,
                                preTime: CacheTime, postTime: CacheTime, actionResponse: Response, token: string)
    requires sfx.Valid()
    requires KeyOf(cfg, req, mediaType) !in store
    ensures var key := KeyOf(cfg, req, mediaType);
      var r := Serve(cfg, sfx, req, mediaType, store, preTime, postTime, actionResponse, token);
      && r.reply.Handled?
      && r.reply.response.etag == Some(SetEtag(token))
      && r.store[key] == Entry(Str(actionResponse.body), postTime.absoluteExpiration)
      && r.store[key + sfx.contentType] == Entry(MediaType(actionResponse.contentType), postTime.absoluteExpiration)
      && r.store[key + sfx.etag] == Entry(ETag(SetEtag(token)), postTime.absoluteExpiration)
  {
    var post := OnActionExecuted(cfg, sfx, req, mediaType, actionResponse, store, postTime, token);
    PersistWritesThreeEntries(sfx, KeyOf(cfg, req, mediaType), post.response, postTime.absoluteExpiration, store);
  }

  /**
   * An eligible lookup of a key whose body, content type and normalised tag
   * are all stored: 304 when a presented tag equals the stored one,
   * otherwise the stored body, content type and tag.
   */
  lemma CompleteEntryLookup(cfg: Config, sfx: KeySuffixes, req: Request, mediaType: string, store: Store,
                            time: CacheTime, body: string, contentType: string, tag: string)
    requires IsCachingAllowed(req, cfg.anonymousOnly)
    requires IsNormalisedTag(tag)
    requires var key := KeyOf(cfg, req, mediaType);
      && key in store && store[key].value == Str(body)
      && key + sfx.contentType in store && store[key + sfx.contentType].value == MediaType(contentType)
      && key + sfx.etag in store && store[key + sfx.etag].value == ETag(tag)
    ensures OnActionExecuting(FirstField, cfg, sfx, req, mediaType, store, time)
      == if tag in req.ifNoneMatch then NotModified(CacheControlFor(cfg.mustRevalidate, time))
         else Hit(body, contentType, Some(tag), CacheControlFor(cfg.mustRevalidate, time))
  {
    SetEtagFixedPoints(tag);
    if tag in req.ifNoneMatch {
      var i :| 0 <= i < |req.ifNoneMatch| && req.ifNoneMatch[i] == tag;
      assert EtagMatches(req.ifNoneMatch, StoredEtag(store, KeyOf(cfg, req, mediaType) + sfx.etag));
    }
  }

  /**
   * The same eligible request twice, the second presenting the tags `tags`:
   * the first misses and runs the action; the second is answered from the
   * cache without running it, with 304 when it presents the tag the first
   * one was given, and otherwise with the first response's body, content
   * type and tag.
   */
  lemma {:induction false} RepeatedRequestServedFromCache(
    cfg: Config, sfx: KeySuffixes, req: Request, mediaType: string, store: Store,
    preTime: CacheTime, postTime: CacheTime, actionResponse: Response, token: string,
    tags: seq<string>, preTime2: CacheTime, postTime2: CacheTime, actionResponse2: Response, token2: string)
    requires sfx.Valid()
    requires IsCachingAllowed(req, cfg.anonymousOnly)
    requires KeyOf(cfg, req, mediaType) !in store
    ensures var first := Serve(cfg, sfx, req, mediaType, store, preTime, postTime, actionResponse, token);
      var second := Serve(cfg, sfx, req.(ifNoneMatch := tags), mediaType, first.store, preTime2, postTime2, actionResponse2, token2);
      && first.reply.Handled?
      && first.reply.response.etag == Some(SetEtag(token))
      && second.reply.Cached?
      && second.store == first.store
      && (SetEtag(token) in tags ==>
            second.reply.decision == NotModified(CacheControlFor(cfg.mustRevalidate, preTime2)))
      && (SetEtag(token) !in tags ==>
            second.reply.decision == Hit(actionResponse.body, actionResponse.contentType, Some(SetEtag(token)),
                                         CacheControlFor(cfg.mustRevalidate, preTime2)))
  {
    var first := Serve(cfg, sfx, req, mediaType, store, preTime, postTime, actionResponse, token);
    MissRunsActionAndWrites(cfg, sfx, req, mediaType, store, preTime, postTime, actionResponse, token);
    var req2 := req.(ifNoneMatch := tags);
    assert KeyOf(cfg, req2, mediaType) == KeyOf(cfg, req, mediaType);
    CompleteEntryLookup(cfg, sfx, req2, mediaType, first.store, preTime2,
                        actionResponse.body, actionResponse.contentType, SetEtag(token));
  }

  /**
   * An ineligible request (not a GET, or an authenticated caller of an
   * anonymous-only action) never reads the cache: the action always runs
   * and its response gets no Cache-Control from the filter.
   */
  lemma IneligibleRequestRunsAction(cfg: Config, sfx: KeySuffixes, req: Request, mediaType: string, store: Store,
                                    preTime: CacheTime, postTime: CacheTime, actionResponse: Response, token: string)
    requires !IsCachingAllowed(req, cfg.anonymousOnly)
    ensures var r := Serve(cfg, sfx, req, mediaType, store, preTime, postTime, actionResponse, token);
      && r.reply.Handled?
      && r.reply.response.cacheControl == actionResponse.cacheControl
  {
  }

  /**
   * The post-action filter stores before it checks eligibility: an
   * ineligible request whose key is not cached still writes all three
   * entries, and tags its response.
   */
  lemma IneligibleMissStillWrites(cfg: Config, sfx: KeySuffixes, req: Request, mediaType: string, store: Store,
                                  preTime: CacheTime, postTime: CacheTime, actionResponse: Response, token: string)
    requires sfx.Valid()
    requires !IsCachingAllowed(req, cfg.anonymousOnly)
    requires KeyOf(cfg, req, mediaType) !in store
    ensures var key := KeyOf(cfg, req, mediaType);
      var r := Serve(cfg, sfx, req, mediaType, store, preTime, postTime, actionResponse, token);
      && r.reply.response.etag == Some(SetEtag(token))
      && r.reply.response.cacheControl == actionResponse.cacheControl
      && r.store[key] == Entry(Str(actionResponse.body), postTime.absoluteExpiration)
      && r.store[key + sfx.contentType] == Entry(MediaType(actionResponse.contentType), postTime.absoluteExpiration)
      && r.store[key + sfx.etag] == Entry(ETag(SetEtag(token)), postTime.absoluteExpiration)
  {
    MissRunsActionAndWrites(cfg, sfx, req, mediaType, store, preTime, postTime, actionResponse, token);
  }

  /**
   * Every reply to an eligible request carries Cache-Control with the
   * client span of the policy evaluated for that reply, and the configured
   * must-revalidate; a 304 uses the time evaluated when it is sent, not the
   * cached entry's expiration.
   */
  lemma EligibleRepliesCarryCacheControl(cfg: Config, sfx: KeySuffixes, req: Request, mediaType: string, store: Store,
                                         preTime: CacheTime, postTime: CacheTime, actionResponse: Response, token: string)
    requires IsCachingAllowed(req, cfg.anonymousOnly)
    ensures var r := Serve(cfg, sfx, req, mediaType, store, preTime, postTime, actionResponse, token);
      match r.reply
      case Cached(d) => d.InvalidCast? || d.BadMediaType? || d.cacheControl == CacheControl(preTime.clientTimeSpan, cfg.mustRevalidate)
      case Handled(resp) => resp.cacheControl == Some(CacheControl(postTime.clientTimeSpan, cfg.mustRevalidate))
  {
  }

  /**
   * A cached key whose value is not a string, with no matching tag, runs
   * the action every time and is never replaced, since the post-action
   * filter only writes keys that are not yet cached.
   */
  lemma CorruptEntryRunsActionAndStays(cfg: Config, sfx: KeySuffixes, req: Request, mediaType: string, store: Store,
                                       preTime: CacheTime, postTime: CacheTime, actionResponse: Response, token: string)
    requires KeyOf(cfg, req, mediaType) in store && !store[KeyOf(cfg, req, mediaType)].value.Str?
    requires !EtagMatches(req.ifNoneMatch, StoredEtag(store, KeyOf(cfg, req, mediaType) + sfx.etag))
    ensures var r := Serve(cfg, sfx, req, mediaType, store, preTime, postTime, actionResponse, token);
      && r.reply.Handled?
      && r.store == store
      && r.reply.response.etag == actionResponse.etag
  {
  }

  /** Applying the body write alone adds exactly that entry. */
  lemma BodyWriteOnly(sfx: KeySuffixes, key: string, written: Response, expiration: int, store: Store)
    requires written.etag.Some?
    ensures ApplyWrites(store, PendingWrites(sfx, key, written, expiration)[..1])
         == store[key := Entry(Str(written.body), expiration)]
  {
    var ws := PendingWrites(sfx, key, written, expiration)[..1];
    assert ws[..0] == [];
  }

  /** The lookup when the key holds a string body and neither its content type nor its tag is stored. */
  lemma BodyOnlyLookup(reading: KeyReading, cfg: Config, sfx: KeySuffixes, req: Request, mediaType: string,
                       store: Store, time: CacheTime)
    requires IsCachingAllowed(req, cfg.anonymousOnly)
    requires var key := KeyOf(cfg, req, mediaType);
      && key in store && store[key].value.Str?
      && key + sfx.contentType !in store && key + sfx.etag !in store
    ensures var key := KeyOf(cfg, req, mediaType);
      var fallback := FallbackContentType(reading, key);
      OnActionExecuting(reading, cfg, sfx, req, mediaType, store, time)
        == if IsMediaTypeSyntax(fallback) then Hit(store[key].value.text, fallback, None, CacheControlFor(cfg.mustRevalidate, time))
           else BadMediaType
  {
  }

  /**
   * A reader that arrives after the body is written but before the content
   * type and tag are (the writes are not awaited) is served the body with
   * the media type read back from the key and no tag, provided the key's
   * URI part holds no colon.
   */
  lemma {:induction false} ReaderBetweenWritesFallsBack(cfg: Config, sfx: KeySuffixes, req: Request, mediaType: string,
                                                        store: Store, written: Response, expiration: int, time: CacheTime)
    requires sfx.Valid() && written.etag.Some?
    requires IsMediaTypeSyntax(mediaType)
    requires Separator !in KeyUri(cfg.excludeQueryStringFromCacheKey, req.uri)
    requires IsCachingAllowed(req, cfg.anonymousOnly)
    requires var key := KeyOf(cfg, req, mediaType);
      key + sfx.contentType !in store && key + sfx.etag !in store
    ensures var key := KeyOf(cfg, req, mediaType);
      var partial := ApplyWrites(store, PendingWrites(sfx, key, written, expiration)[..1]);
      OnActionExecuting(FirstField, cfg, sfx, req, mediaType, partial, time)
        == Hit(written.body, mediaType, None, CacheControlFor(cfg.mustRevalidate, time))
  {
    var key := KeyOf(cfg, req, mediaType);
    SuffixedKeysDiffer(sfx, key);
    BodyWriteOnly(sfx, key, written, expiration, store);
    var partial := store[key := Entry(Str(written.body), expiration)];
    BodyOnlyLookup(FirstField, cfg, sfx, req, mediaType, partial, time);
    MediaTypeHasNoSeparator(mediaType);
    SecondFieldAgreesWithoutColonInUri(cfg.excludeQueryStringFromCacheKey, req.uri, mediaType);
  }

  /**
   * With a colon in the query the same reader fails: for `/teams?at=10:30`
   * negotiated to `application/json` the type read back is `30`, which does
   * not parse as a media type.
   */
  lemma {:induction false} ReaderBetweenWritesMisreadsColonInQuery(
    cfg: Config, sfx: KeySuffixes, req: Request, mediaType: string,
    store: Store, written: Response, expiration: int, time: CacheTime)
    requires sfx.Valid() && written.etag.Some?
    requires req.verb == Get && !req.isAuthenticated && req.ifNoneMatch == []
    requires !cfg.excludeQueryStringFromCacheKey
    requires req.uri == RequestUri("/teams", "?at=10:30") && mediaType == "application/json"
    requires var key := KeyOf(cfg, req, mediaType);
      key + sfx.contentType !in store && key + sfx.etag !in store
    ensures var key := KeyOf(cfg, req, mediaType);
      var partial := ApplyWrites(store, PendingWrites(sfx, key, written, expiration)[..1]);
      OnActionExecuting(FirstField, cfg, sfx, req, mediaType, partial, time) == BadMediaType
  {
    var key := KeyOf(cfg, req, mediaType);
    SuffixedKeysDiffer(sfx, key);
    BodyWriteOnly(sfx, key, written, expiration, store);
    var partial := store[key := Entry(Str(written.body), expiration)];
    BodyOnlyLookup(FirstField, cfg, sfx, req, mediaType, partial, time);
    SecondFieldMisreadsColonInQuery(req.uri.absolutePath, req.uri.query, mediaType);
    var field := SecondField(key);
    assert field == "30";
    assert '/' !in field;
    assert IndexOf(field, '/') == |field|;
    assert !IsMediaTypeSyntax(field);
  }

  /**
   * With a colon in the path the same reader can be served the wrong type:
   * for `/a:b/c` negotiated to `application/json` it gets the body labelled
   * `b/c`.
   */
  lemma {:induction false} ReaderBetweenWritesMislabelsColonInPath(
    cfg: Config, sfx: KeySuffixes, req: Request, mediaType: string,
    store: Store, written: Response, expiration: int, time: CacheTime)
    requires sfx.Valid() && written.etag.Some?
    requires req.verb == Get && !req.isAuthenticated && req.ifNoneMatch == []
    requires !cfg.excludeQueryStringFromCacheKey
    requires req.uri == RequestUri("/a:b/c", "") && mediaType == "application/json"
    requires var key := KeyOf(cfg, req, mediaType);
      key + sfx.contentType !in store && key + sfx.etag !in store
    ensures var key := KeyOf(cfg, req, mediaType);
      var partial := ApplyWrites(store, PendingWrites(sfx, key, written, expiration)[..1]);
      OnActionExecuting(FirstField, cfg, sfx, req, mediaType, partial, time)
        == Hit(written.body, "b/c", None, CacheControlFor(cfg.mustRevalidate, time))
  {
    var key := KeyOf(cfg, req, mediaType);
    SuffixedKeysDiffer(sfx, key);
    BodyWriteOnly(sfx, key, written, expiration, store);
    var partial := store[key := Entry(Str(written.body), expiration)];
    BodyOnlyLookup(FirstField, cfg, sfx, req, mediaType, partial, time);
    SecondFieldMisreadsColonInPath(req.uri.absolutePath, req.uri.query, mediaType);
  }

  /**
   * Reading the key back from its last colon serves the reader between the
   * writes the negotiated media type, whatever the path and query hold.
   */
  lemma {:induction false} CorrectedReaderBetweenWritesFallsBack(cfg: Config, sfx: KeySuffixes, req: Request, mediaType: string,
                                                                 store: Store, written: Response, expiration: int, time: CacheTime)
    requires sfx.Valid() && written.etag.Some?
    requires IsMediaTypeSyntax(mediaType)
    requires IsCachingAllowed(req, cfg.anonymousOnly)
    requires var key := KeyOf(cfg, req, mediaType);
      key + sfx.contentType !in store && key + sfx.etag !in store
    ensures var key := KeyOf(cfg, req, mediaType);
      var partial := ApplyWrites(store, PendingWrites(sfx, key, written, expiration)[..1]);
      OnActionExecuting(LastField, cfg, sfx, req, mediaType, partial, time)
        == Hit(written.body, mediaType, None, CacheControlFor(cfg.mustRevalidate, time))
  {
    var key := KeyOf(cfg, req, mediaType);
    SuffixedKeysDiffer(sfx, key);
    BodyWriteOnly(sfx, key, written, expiration, store);
    var partial := store[key := Entry(Str(written.body), expiration)];
    BodyOnlyLookup(LastField, cfg, sfx, req, mediaType, partial, time);
    MediaTypeHasNoSeparator(mediaType);
    MediaTypeOfKeyInvertsKey(cfg.excludeQueryStringFromCacheKey, req.uri, mediaType);
  }
}
