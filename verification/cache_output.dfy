/**
 * The output-cache action filter: the eligibility rule, the lookup that runs
 * before the action (`OnActionExecuting`), the store that runs after it
 * (`OnActionExecuted`), and the Cache-Control and ETag headers it applies.
 *
 * Everything the filter reads from ambient state is an explicit input here:
 * the caller's authentication, the negotiated media type, the cache store,
 * the `CacheTime` the policy yields at "now", and the fresh token `Guid`
 * would produce.
 */
module CacheOutput {
  import opened Wrappers
  import opened CacheTimes
  import opened CacheKeys
  import opened ETags

  datatype Verb = Get | Head | Post | Put | Delete | Options | Patch | Trace

  /** What the filter sees of a request. An absent If-None-Match header is the empty tag list. */
  datatype Request = Request(verb: Verb, uri: RequestUri, isAuthenticated: bool, ifNoneMatch: seq<string>)

  /** The attribute's switches. */
  datatype Config = Config(anonymousOnly: bool, mustRevalidate: bool, excludeQueryStringFromCacheKey: bool)

  /**
   * The two suffixes appended to a key to address its content type and its
   * entity tag. Their text is immaterial; they must be non-empty and differ.
   */
  datatype KeySuffixes = KeySuffixes(contentType: string, etag: string) {
    predicate Valid() {
      contentType != [] && etag != [] && contentType != etag
    }
  }

  /** A value in the store, tagged by the runtime type the filter casts it to. */
  datatype Value = Str(text: string) | MediaType(mediaType: string) | ETag(tag: string) | Other

  /** A stored value together with the absolute expiration it was added with. */
  datatype Entry = Entry(value: Value, expiration: int)

  /** The live contents of the cache: expired entries are assumed already gone. */
  type Store = map<string, Entry>

  datatype CacheControl = CacheControl(maxAge: int, mustRevalidate: bool)

  /** An HTTP response as far as the filter touches it. */
  datatype Response = Response(status: int, body: string, contentType: string,
                               etag: Option<string>, cacheControl: Option<CacheControl>)

  /** What the pre-action filter decides. */
  datatype Decision =
    | NoResponse                                  // let the action run
    | NotModified(cacheControl: CacheControl)     // 304, no body
    | Hit(body: string, contentType: string, etag: Option<string>, cacheControl: CacheControl)
    | InvalidCast                                 // the stored content type is not a media type: the hard cast throws
    | BadMediaType                                // the type read back from the key does not parse: `FormatException`

  /**
   * How a content type is read back from a key when none is stored.
   * `FirstField` is `cachekey.Split(':')[1]`, as the filter does it;
   * `LastField` is the text after the last colon, the media type the key
   * was built with.
   */
  datatype KeyReading = FirstField | LastField

  /** The content type read back from a key when none is stored. */
  function FallbackContentType(reading: KeyReading, key: string): (r: string)
    requires Separator in key
    ensures Separator !in r
    ensures reading == FirstField ==>
      var start := IndexOf(key, Separator) + 1;
      && start + |r| <= |key| && key[start..start + |r|] == r
      && (start + |r| == |key| || key[start + |r|] == Separator)
    ensures reading == LastField ==>
      && |r| < |key| && key[|key| - |r|..] == r && key[|key| - |r| - 1] == Separator
  {
    match reading
    case FirstField => SecondField(key)
    case LastField => MediaTypeOfKey(key)
  }

  /** `_isCachingAllowed`: only GET, and only anonymous callers when the attribute is anonymous-only. */
  function IsCachingAllowed(req: Request, anonymousOnly: bool): (allowed: bool)
    ensures allowed <==> req.verb == Get && !(anonymousOnly && req.isAuthenticated)
  {
    if anonymousOnly && req.isAuthenticated then false
    else req.verb == Get
  }

  /** The key a request is cached under. */
  function KeyOf(cfg: Config, req: Request, mediaType: string): string {
    MakeCacheKey(cfg.excludeQueryStringFromCacheKey, req.uri, mediaType)
  }

  /** The Cache-Control header `ApplyCacheHeaders` builds. */
  function CacheControlFor(mustRevalidate: bool, time: CacheTime): CacheControl {
    CacheControl(time.clientTimeSpan, mustRevalidate)
  }

  /** `ApplyCacheHeaders`: replace the response's Cache-Control and nothing else. */
  function ApplyCacheHeaders(response: Response, mustRevalidate: bool, time: CacheTime): (r: Response)
    ensures r.cacheControl.Some?
    ensures r.cacheControl.value.maxAge == time.clientTimeSpan
    ensures r.cacheControl.value.mustRevalidate == mustRevalidate
    ensures r.(cacheControl := response.cacheControl) == response
  {
    response.(cacheControl := Some(CacheControlFor(mustRevalidate, time)))
  }

  /** `Get(k) as EntityTagHeaderValue`: the stored tag, or nothing when absent or of another type. */
  function StoredEtag(store: Store, k: string): (t: Option<string>)
    ensures t.Some? <==> k in store && store[k].value.ETag?
    ensures t.Some? ==> store[k].value == ETag(t.value)
  {
    if k in store && store[k].value.ETag? then Some(store[k].value.tag) else None
  }

  /** `IfNoneMatch.Any(x => x.Tag == etag.Tag)` against a stored tag that must exist. */
  function EtagMatches(presented: seq<string>, stored: Option<string>): (m: bool)
    ensures m <==> stored.Some? && stored.value in presented
  {
    stored.Some? && exists i :: 0 <= i < |presented| && presented[i] == stored.value
  }

  /**
   * `OnActionExecuting`, with the key read back by `reading` (the filter
   * itself is `FirstField`). In order: an ineligible request or a missing
   * key lets the action run; a presented tag equal to the stored one gives
   * 304; a stored body that is not a string lets the action run; otherwise
   * the stored body is served with the stored content type, or the one read
   * back from the key when none is stored, and the stored tag, normalised.
   * A stored content type of another type fails the cast, and a read-back
   * type that is not `type/subtype` fails to parse. The store is only read.
   */
  function OnActionExecuting(reading: KeyReading, cfg: Config, sfx: KeySuffixes, req: Request, mediaType: string,
                             store: Store, time: CacheTime): (d: Decision)
    ensures !IsCachingAllowed(req, cfg.anonymousOnly) ==> d == NoResponse
    ensures KeyOf(cfg, req, mediaType) !in store ==> d == NoResponse
    ensures d.NotModified? <==>
      && IsCachingAllowed(req, cfg.anonymousOnly)
      && KeyOf(cfg, req, mediaType) in store
      && EtagMatches(req.ifNoneMatch, StoredEtag(store, KeyOf(cfg, req, mediaType) + sfx.etag))
    ensures d.NotModified? || d.Hit? ==> d.cacheControl == CacheControlFor(cfg.mustRevalidate, time)
    ensures d.Hit? || d.InvalidCast? || d.BadMediaType? ==>
      KeyOf(cfg, req, mediaType) in store && store[KeyOf(cfg, req, mediaType)].value.Str?
    ensures d.Hit? ==>
      var key := KeyOf(cfg, req, mediaType);
      && d.body == store[key].value.text
      && d.etag == (if StoredEtag(store, key + sfx.etag).Some? then Some(SetEtag(StoredEtag(store, key + sfx.etag).value)) else None)
      && (key + sfx.contentType in store ==> store[key + sfx.contentType].value == MediaType(d.contentType))
      && (key + sfx.contentType !in store ==>
            d.contentType == FallbackContentType(reading, key) && IsMediaTypeSyntax(d.contentType))
    ensures d.InvalidCast? ==>
      var ctKey := KeyOf(cfg, req, mediaType) + sfx.contentType;
      ctKey in store && !store[ctKey].value.MediaType?
    ensures d.BadMediaType? ==>
      var key := KeyOf(cfg, req, mediaType);
      key + sfx.contentType !in store && !IsMediaTypeSyntax(FallbackContentType(reading, key))
    ensures var key := KeyOf(cfg, req, mediaType);
      && IsCachingAllowed(req, cfg.anonymousOnly)
      && key in store && store[key].value.Str?
      && !EtagMatches(req.ifNoneMatch, StoredEtag(store, key + sfx.etag))
      ==>
      && (key + sfx.contentType in store && !store[key + sfx.contentType].value.MediaType? ==> d == InvalidCast)
      && (key + sfx.contentType !in store && !IsMediaTypeSyntax(FallbackContentType(reading, key)) ==> d == BadMediaType)
  {
    if !IsCachingAllowed(req, cfg.anonymousOnly) then NoResponse
    else
      var key := KeyOf(cfg, req, mediaType);
      if key !in store then NoResponse
      else if EtagMatches(req.ifNoneMatch, StoredEtag(store, key + sfx.etag)) then
        NotModified(CacheControlFor(cfg.mustRevalidate, time))
      else if !store[key].value.Str? then NoResponse
      else
        var ctKey := key + sfx.contentType;
        if ctKey in store && !store[ctKey].value.MediaType? then InvalidCast
        else if ctKey !in store && !IsMediaTypeSyntax(FallbackContentType(reading, key)) then BadMediaType
        else
          var contentType := if ctKey in store then store[ctKey].value.mediaType else FallbackContentType(reading, key);
          var etag := StoredEtag(store, key + sfx.etag);
          Hit(store[key].value.text, contentType,
              if etag.Some? then Some(SetEtag(etag.value)) else None,
              CacheControlFor(cfg.mustRevalidate, time))
  }

  /** One pending store write: `Add(key, value, absoluteExpiration)`. */
  datatype Write = Write(key: string, value: Value, expiration: int)

  /** The keys a list of writes touches. */
  function WrittenKeys(ws: seq<Write>): set<string> {
    set i | 0 <= i < |ws| :: ws[i].key
  }

  /** No write after the `i`-th touches the same key. */
  predicate IsLastWriteTo(ws: seq<Write>, i: int)
    requires 0 <= i < |ws|
  {
    forall j | i < j < |ws| :: ws[j].key != ws[i].key
  }

  /** Performs the writes in order; a later write to a key replaces an earlier one. */
  function ApplyWrites(store: Store, ws: seq<Write>): (r: Store)
    ensures r.Keys == store.Keys + WrittenKeys(ws)
    ensures forall k :: k in store && k !in WrittenKeys(ws) ==> r[k] == store[k]
    ensures forall i | 0 <= i < |ws| && IsLastWriteTo(ws, i) :: r[ws[i].key] == Entry(ws[i].value, ws[i].expiration)
  {
    if ws == [] then store
    else
      var prev := ApplyWrites(store, ws[..|ws| - 1]);
      ApplyWriteStep(store, ws, prev);
      prev[ws[|ws| - 1].key := Entry(ws[|ws| - 1].value, ws[|ws| - 1].expiration)]
  }

  /** The keys written by a list of writes grow by the last write's key. */
  lemma WrittenKeysStep(ws: seq<Write>)
    requires |ws| > 0
    ensures WrittenKeys(ws) == WrittenKeys(ws[..|ws| - 1]) + {ws[|ws| - 1].key}
  {
    var init := ws[..|ws| - 1];
    assert forall i :: 0 <= i < |ws| - 1 ==> init[i] == ws[i];
  }

  /** One more write keeps all three facts `ApplyWrites` promises. */
  lemma ApplyWriteStep(store: Store, ws: seq<Write>, prev: Store)
    requires |ws| > 0
    requires prev.Keys == store.Keys + WrittenKeys(ws[..|ws| - 1])
    requires forall k :: k in store && k !in WrittenKeys(ws[..|ws| - 1]) ==> prev[k] == store[k]
    requires forall i | 0 <= i < |ws| - 1 && IsLastWriteTo(ws[..|ws| - 1], i) ::
      ws[..|ws| - 1][i].key in prev && prev[ws[..|ws| - 1][i].key] == Entry(ws[i].value, ws[i].expiration)
    ensures var r := prev[ws[|ws| - 1].key := Entry(ws[|ws| - 1].value, ws[|ws| - 1].expiration)];
      && r.Keys == store.Keys + WrittenKeys(ws)
      && (forall k :: k in store && k !in WrittenKeys(ws) ==> r[k] == store[k])
      && (forall i | 0 <= i < |ws| && IsLastWriteTo(ws, i) :: ws[i].key in r && r[ws[i].key] == Entry(ws[i].value, ws[i].expiration))
  {
    WrittenKeysStep(ws);
    LastWriteWinsStep(prev, ws);
  }

  /** One more write keeps "the last write to each key wins". */
  lemma LastWriteWinsStep(prev: Store, ws: seq<Write>)
    requires |ws| > 0
    requires forall i | 0 <= i < |ws| - 1 && IsLastWriteTo(ws[..|ws| - 1], i) ::
      ws[..|ws| - 1][i].key in prev && prev[ws[..|ws| - 1][i].key] == Entry(ws[i].value, ws[i].expiration)
    ensures var last := ws[|ws| - 1];
      var r := prev[last.key := Entry(last.value, last.expiration)];
      forall i | 0 <= i < |ws| && IsLastWriteTo(ws, i) :: ws[i].key in r && r[ws[i].key] == Entry(ws[i].value, ws[i].expiration)
  {
    var init := ws[..|ws| - 1];
    var last := ws[|ws| - 1];
    var r := prev[last.key := Entry(last.value, last.expiration)];
    forall i | 0 <= i < |ws| && IsLastWriteTo(ws, i)
      ensures ws[i].key in r && r[ws[i].key] == Entry(ws[i].value, ws[i].expiration)
    {
      if i < |ws| - 1 {
        assert init[i] == ws[i];
        assert ws[i].key != last.key;
        assert IsLastWriteTo(init, i) by {
          forall j | i < j < |init|
            ensures init[j].key != init[i].key
          {
            assert init[j] == ws[j];
          }
        }
      }
    }
  }

  /** The three writes that persist a response under `key`: body, content type, entity tag, in that order. */
  function PendingWrites(sfx: KeySuffixes, key: string, response: Response, expiration: int): (ws: seq<Write>)
    requires response.etag.Some?
    ensures |ws| == 3
    ensures ws[0] == Write(key, Str(response.body), expiration)
    ensures ws[1] == Write(key + sfx.contentType, MediaType(response.contentType), expiration)
    ensures ws[2] == Write(key + sfx.etag, ETag(response.etag.value), expiration)
  {
    [Write(key, Str(response.body), expiration),
     Write(key + sfx.contentType, MediaType(response.contentType), expiration),
     Write(key + sfx.etag, ETag(response.etag.value), expiration)]
  }

  /** What the post-action filter leaves behind: the response sent, the writes it started, and the store once they land. */
  datatype PostResult = PostResult(response: Response, pending: seq<Write>, store: Store)

  /**
   * `OnActionExecuted`. When the key is not yet cached (it is never blank),
   * the response gets a fresh normalised entity tag and its body, content
   * type and tag are written under the key and its two suffixed keys, all
   * expiring at `time.absoluteExpiration`. Only afterwards is eligibility
   * checked, and only an eligible response gets Cache-Control.
   */
  function OnActionExecuted(cfg: Config, sfx: KeySuffixes, req: Request, mediaType: string,
                            response: Response, store: Store, time: CacheTime, token: string): (r: PostResult)
    ensures r.store == ApplyWrites(store, r.pending)
    ensures KeyOf(cfg, req, mediaType) in store ==> r.pending == [] && r.response.etag == response.etag
    ensures KeyOf(cfg, req, mediaType) !in store ==>
      && r.response.etag == Some(SetEtag(token))
      && r.pending == PendingWrites(sfx, KeyOf(cfg, req, mediaType), r.response, time.absoluteExpiration)
    ensures r.response.(etag := response.etag, cacheControl := response.cacheControl) == response
    ensures r.response.cacheControl ==
      if IsCachingAllowed(req, cfg.anonymousOnly) then Some(CacheControlFor(cfg.mustRevalidate, time)) else response.cacheControl
  {
    var key := KeyOf(cfg, req, mediaType);
    var (tagged, pending) :=
      if key !in store && !IsBlank(key) then
        var t := response.(etag := Some(SetEtag(token)));
        (t, PendingWrites(sfx, key, t, time.absoluteExpiration))
      else (response, []);
    var sent := if IsCachingAllowed(req, cfg.anonymousOnly) then ApplyCacheHeaders(tagged, cfg.mustRevalidate, time) else tagged;
    PostResult(sent, pending, ApplyWrites(store, pending))
  }

  /** How a request was answered: straight from the pre-action filter, or by the action and then the post-action filter. */
  datatype Reply = Cached(decision: Decision) | Handled(response: Response)

  datatype Round = Round(reply: Reply, store: Store)

  /**
   * One request through the filter. The action (whose response is
   * `actionResponse`) runs only when the pre-action filter produced nothing;
   * a response set before the action skips the post-action filter.
   * `preTime` and `postTime` are the policy evaluated at the two "now"s.
   */
  function Serve(cfg: Config, sfx: KeySuffixes, req: Request, mediaType: string, store: Store,
                 preTime: CacheTime, postTime: CacheTime, actionResponse: Response, token: string): (r: Round)
    ensures r.reply.Cached? ==> r.store == store && !r.reply.decision.NoResponse?
  {
    var d := OnActionExecuting(FirstField, cfg, sfx, req, mediaType, store, preTime);
    if d.NoResponse? then
      var post := OnActionExecuted(cfg, sfx, req, mediaType, actionResponse, store, postTime, token);
      Round(Handled(post.response), post.store)
    else Round(Cached(d), store)
  }
}
