# WebAPI.OutputCache core, modelled in Dafny

This project models the output-cache action filter of ASP.NET Web API
OutputCache (`CacheOutputAttribute`) and its next-time-of-day expiration
policy (`ThisDay`), and proves properties of the model.

- `wrappers.dfy` (`Wrappers`): `Option` and `Result`.
- `cache_time.dfy` (`CacheTimes`): instants as `DateTime` tick counts
  (`0 .. DateTime.MaxValue.Ticks`), day and time of day, the `CacheTime`
  record, and the attribute's lazily chosen policy (`EnsureCacheTimeQuery`).
- `this_day.dfy` (`ThisDayPolicy`): `ThisDay.Execute` as a pure function of
  (hour, minute, second, reference instant), with its exceptions as `Failure`s.
- `etag.dfy` (`ETags`): `SetEtag` normalisation.
- `cache_key.dfy` (`CacheKeys`): `MakeCachekey` and reading the media type
  back out of a key.
- `cache_output.dfy` (`CacheOutput`): the eligibility rule, the pre-action
  lookup, the post-action store, Cache-Control, and one request through
  both filters (`Serve`).
- `cache_output_properties.dfy` (`CacheOutputProperties`): properties that
  relate several calls, or a call to the store it leaves behind.

The store is a `map<string, Entry>` whose values are tagged by the runtime
type the filter casts them to (`Str`, `MediaType`, `ETag`, `Other`) and carry
the absolute expiration they were added with. The two key suffixes
(`Constants.ContentTypeKey`, `Constants.EtagKey`) are a parameter; the
properties only assume they are non-empty and different.

The filter's code has these consequences, which the model keeps as they
are:

- An ineligible request (not GET, or authenticated on an anonymous-only
  action) whose key is not cached still has its response written to the
  store, because `OnActionExecuted` writes before it checks eligibility
  (`IneligibleMissStillWrites`). Only the Cache-Control header is withheld.
- Entity tags are compared as the header values hold them, quotes included,
  with plain string equality.
- A stored content-type value of the wrong type is not a graceful fall-back:
  the hard cast throws, modelled as the decision `InvalidCast`.
- With no stored content type, the type is read back from the key as the
  field after its first colon, and a field that is not `type/subtype`
  makes the `MediaTypeHeaderValue` constructor throw, modelled as the
  decision `BadMediaType` (see Findings).
- The response status is not looked at: any response the action produces
  for an uncached key is stored.
- A key whose value is not a string makes the action run, and the
  post-action filter does not replace it, because it only writes keys that
  are absent (`CorruptEntryRunsActionAndStays`).

## Model

| member | source | states |
|---|---|---|
| CacheTimes.Day | WebAPI.OutputCache/Time/ThisDay.cs:22-24 | the date part of a `DateTime`: a representable day, and the instant lies within it |
| CacheTimes.TimeOfDay | WebAPI.OutputCache/Time/ThisDay.cs:22-27 | the time of day is less than a day and together with the day reassembles the instant |
| CacheTimes.EnsureCacheTimeQuery | WebAPI.OutputCache/CacheOutputAttribute.cs:53-56 | an already installed policy is kept; otherwise a `ShortTime` built from the two configured spans |
| CacheTimes.EnsureCacheTimeQueryIsStable | WebAPI.OutputCache/CacheOutputAttribute.cs:53-56 | running the set-up again never replaces the policy chosen first |
| ThisDayPolicy.Offset | WebAPI.OutputCache/Time/ThisDay.cs:25-27 | hour:minute:second is a time of day strictly within one day, with no sub-second part |
| ThisDayPolicy.TodayTarget | WebAPI.OutputCache/Time/ThisDay.cs:20-28 | "today at hh:mm:ss" falls on the reference day and has the configured time of day |
| ThisDayPolicy.DayTicks | WebAPI.OutputCache/Time/ThisDay.cs:30-31 | the instant built from a day and a time of day has exactly that day and time of day |
| ThisDayPolicy.Execute | WebAPI.OutputCache/Time/ThisDay.cs:18-37 | the `DateTime` constructor fails if and only if a field is out of range; rolling past `DateTime.MaxValue` fails exactly when today's target is not after the reference on the last day; otherwise the expiration is strictly after the reference, has the configured time of day, is on the reference day exactly when the reference's time of day is earlier and on the next day otherwise, and both spans equal expiration minus reference, in (0, one day] |
| ThisDayPolicy.OffsetDecodes | WebAPI.OutputCache/Time/ThisDay.cs:25-27 | splitting hour:minute:second's offset back into hour, minute and second gives back the three fields |
| ThisDayPolicy.ExpirationHasConfiguredFields | WebAPI.OutputCache/Time/ThisDay.cs:11-16 | the expiration's hour, minute and second are the constructor's fields, with no sub-second part |
| ThisDayPolicy.ExpirationIsNextOccurrence | WebAPI.OutputCache/Time/ThisDay.cs:20-31 | the expiration is the first instant after the reference with the configured time of day: no instant in between has it |
| ThisDayPolicy.NextOccurrenceIsExpiration | WebAPI.OutputCache/Time/ThisDay.cs:20-31 | any first instant after the reference with the configured time of day is the computed expiration |
| ThisDayPolicy.EqualInstantRollsForward | WebAPI.OutputCache/Time/ThisDay.cs:30-31 | (17,0,0) evaluated at 17:00:00 expires at 17:00:00 the next day, both spans one day |
| ETags.RemoveQuotes | WebAPI.OutputCache/CacheOutputAttribute.cs:177 | the result has no quote, contains exactly the non-quote characters of the input, and is shorter by the number of quotes |
| ETags.RemoveQuotesOfChar | WebAPI.OutputCache/CacheOutputAttribute.cs:177 | on one character, a quote is dropped and any other character kept |
| ETags.RemoveQuotesAppend | WebAPI.OutputCache/CacheOutputAttribute.cs:177 | removing quotes distributes over concatenation, so with `RemoveQuotesOfChar` it is the order-preserving filter that drops quotes |
| ETags.RemoveQuotesOfQuoteFree | WebAPI.OutputCache/CacheOutputAttribute.cs:177 | removing quotes from quote-free text leaves it unchanged |
| ETags.SetEtag | WebAPI.OutputCache/CacheOutputAttribute.cs:175-179 | the tag opens and closes with a quote, has none in between, holds exactly two quotes, and its inside is the input with all quotes removed |
| ETags.SetEtagFixedPoints | WebAPI.OutputCache/CacheOutputAttribute.cs:175-179 | a tag is unchanged by normalisation if and only if it is already one quoted, quote-free token |
| ETags.SetEtagIdempotent | WebAPI.OutputCache/CacheOutputAttribute.cs:175-179 | normalising an already normalised tag leaves it unchanged |
| CacheKeys.MakeCacheKey | WebAPI.OutputCache/CacheOutputAttribute.cs:75-86 | the key is the URI part (path and query, or path alone when the query is excluded), one colon, then the media type; it is never blank |
| CacheKeys.MakeCacheKeyJoins | WebAPI.OutputCache/CacheOutputAttribute.cs:75-86 | the key is exactly the URI part, the colon and the media type, in that order |
| CacheKeys.ExcludedQueryIsIgnored | WebAPI.OutputCache/CacheOutputAttribute.cs:77-78 | with the query excluded, two requests for the same path get the same key whatever their queries |
| CacheKeys.IncludedQueryDistinguishes | WebAPI.OutputCache/CacheOutputAttribute.cs:77-86 | with the query included, same path and media type give the same key if and only if the queries are equal |
| CacheKeys.MediaTypeDistinguishes | WebAPI.OutputCache/CacheOutputAttribute.cs:80-84 | for the same URI, two media types give the same key if and only if they are equal |
| CacheKeys.AfterLastSeparator | WebAPI.OutputCache/CacheOutputAttribute.cs:124 | the corrected reading: the longest colon-free suffix of the key |
| CacheKeys.MediaTypeOfKeyInvertsKey | WebAPI.OutputCache/CacheOutputAttribute.cs:123-124 | reading a key back (corrected) returns the media type it was built with |
| CacheKeys.SecondField | WebAPI.OutputCache/CacheOutputAttribute.cs:124 | `Split(':')[1]` as written: the text after the first colon up to the next colon or the end, colon-free |
| CacheKeys.IsMediaTypeSyntax | WebAPI.OutputCache/CacheOutputAttribute.cs:124 | what the `MediaTypeHeaderValue` constructor accepts: the text is split by some slash into two HTTP tokens, with nothing around them |
| CacheKeys.SlashAfterTokenIsFirst | WebAPI.OutputCache/CacheOutputAttribute.cs:124 | a slash preceded by a token is the first slash of the text, so the split of a media type is unique |
| CacheKeys.MediaTypeHasNoSeparator | WebAPI.OutputCache/CacheOutputAttribute.cs:124 | a string that parses as `type/subtype` holds no colon |
| CacheKeys.SecondFieldAgreesWithoutColonInUri | WebAPI.OutputCache/CacheOutputAttribute.cs:123-124 | when the URI part has no colon, the as-written and corrected readings both return the media type |
| CacheKeys.SecondFieldOfThreeFields | WebAPI.OutputCache/CacheOutputAttribute.cs:124 | on a key of the form `a:b:c` with colon-free `a` and `b`, the as-written reading yields `b` |
| CacheKeys.SecondFieldOfColonInQuery | WebAPI.OutputCache/CacheOutputAttribute.cs:124 | with one colon in the query, the as-written reading yields the query text after that colon |
| CacheKeys.SecondFieldMisreadsColonInQuery | WebAPI.OutputCache/CacheOutputAttribute.cs:124 | for `/teams?at=10:30` negotiated to `application/json` the as-written reading yields `30`, not the media type |
| CacheKeys.SecondFieldOfColonInPath | WebAPI.OutputCache/CacheOutputAttribute.cs:124 | with one colon in the path and no query, the as-written reading yields the path text after that colon |
| CacheKeys.MediaTypeOfTokens | WebAPI.OutputCache/CacheOutputAttribute.cs:124 | two tokens joined by a slash are accepted as a media type |
| CacheKeys.SlashTypeParses | WebAPI.OutputCache/CacheOutputAttribute.cs:124 | `b/c` is accepted as a media type |
| CacheKeys.SecondFieldMisreadsColonInPath | WebAPI.OutputCache/CacheOutputAttribute.cs:124 | for `/a:b/c` negotiated to `application/json` the as-written reading yields `b/c`, which parses and is not the media type |
| CacheOutput.IsCachingAllowed | WebAPI.OutputCache/CacheOutputAttribute.cs:34-41 | caching is allowed if and only if the method is GET and not (anonymous-only and the caller authenticated) |
| CacheOutput.ApplyCacheHeaders | WebAPI.OutputCache/CacheOutputAttribute.cs:164-173 | Cache-Control gets max-age equal to the client span and must-revalidate equal to the configured flag; nothing else in the response changes |
| CacheOutput.FallbackContentType | WebAPI.OutputCache/CacheOutputAttribute.cs:123-124 | the type read back from a key holds no colon; as written it is the text from the first colon to the next colon or the end; corrected it is the text after the last colon |
| CacheOutput.EtagMatches | WebAPI.OutputCache/CacheOutputAttribute.cs:107-109 | a presented tag matches if and only if a tag is stored and it is one of the presented tags |
| CacheOutput.StoredEtag | WebAPI.OutputCache/CacheOutputAttribute.cs:106 | a tag is found exactly when the key holds an entity-tag value, and it is that value |
| CacheOutput.OnActionExecuting | WebAPI.OutputCache/CacheOutputAttribute.cs:88-135 | ineligible or uncached gives no response; 304 exactly when eligible, cached and some presented tag equals the stored tag (whatever the body); 304 and hits carry Cache-Control from the time evaluated now; a hit serves the stored string body, the stored tag normalised, and the stored media type or, when none is stored, the type read back from the key, which parses; once the body is a string and no tag matches, a stored content type of another type fails the cast, and a read-back type that does not parse fails to construct, in both directions |
| CacheOutput.ApplyWrites | WebAPI.OutputCache/CacheOutputAttribute.cs:148-156 | the store gains exactly the written keys, each written key holds the value and expiration of the last write to it, every other key keeps its entry |
| CacheOutput.WrittenKeysStep | WebAPI.OutputCache/CacheOutputAttribute.cs:148-156 | one more write adds exactly its key to the written keys |
| CacheOutput.ApplyWriteStep | WebAPI.OutputCache/CacheOutputAttribute.cs:148-156 | one more write keeps the three facts of `ApplyWrites`: keys, untouched entries, last write to each key |
| CacheOutput.LastWriteWinsStep | WebAPI.OutputCache/CacheOutputAttribute.cs:148-156 | one more write keeps "each written key holds its last write" |
| CacheOutput.PendingWrites | WebAPI.OutputCache/CacheOutputAttribute.cs:146-157 | body under the key, content type under key+content-type suffix, tag under key+tag suffix, in that order, all with one expiration |
| CacheOutput.OnActionExecuted | WebAPI.OutputCache/CacheOutputAttribute.cs:137-162 | a cached key leaves the store and tag alone; an uncached key tags the response with the normalised fresh token and schedules the three writes at the policy's absolute expiration; Cache-Control is applied if and only if caching is allowed; nothing else in the response changes |
| CacheOutput.Serve | WebAPI.OutputCache/CacheOutputAttribute.cs:88-162 | a reply from the pre-action filter leaves the store untouched |
| CacheOutputProperties.PersistWritesThreeEntries | WebAPI.OutputCache/CacheOutputAttribute.cs:146-157 | after the writes, the key, key+content-type and key+tag hold body, media type and tag, all with the same expiration, and every other key is unchanged |
| CacheOutputProperties.HitExactlyWhen | WebAPI.OutputCache/CacheOutputAttribute.cs:102-134 | a full hit happens if and only if eligible, cached with a string body, no presented tag matches, and the content-type entry is a media type or, when absent, the type read back from the key parses |
| CacheOutputProperties.MissRunsActionAndWrites | WebAPI.OutputCache/CacheOutputAttribute.cs:137-157 | an uncached key, eligible or not, runs the action, tags the response with the normalised token and stores body, content type and tag |
| CacheOutputProperties.CompleteEntryLookup | WebAPI.OutputCache/CacheOutputAttribute.cs:102-134 | with body, content type and normalised tag all stored, an eligible lookup gives 304 exactly when the tag is presented and otherwise serves the three stored values |
| CacheOutputProperties.RepeatedRequestServedFromCache | WebAPI.OutputCache/CacheOutputAttribute.cs:88-158 | an eligible uncached request runs the action once; the same request again is answered from the cache: 304 if it presents the issued tag, otherwise the first response's body, content type and tag |
| CacheOutputProperties.IneligibleRequestRunsAction | WebAPI.OutputCache/CacheOutputAttribute.cs:92 | an ineligible request always runs the action and gets no Cache-Control from the filter |
| CacheOutputProperties.IneligibleMissStillWrites | WebAPI.OutputCache/CacheOutputAttribute.cs:142-160 | an ineligible request whose key is uncached still writes body, content type and tag, because the write precedes the eligibility check, and gets no Cache-Control |
| CacheOutputProperties.EligibleRepliesCarryCacheControl | WebAPI.OutputCache/CacheOutputAttribute.cs:111-113 | every reply to an eligible request (304, hit or action) carries max-age from the time evaluated for that reply and the configured must-revalidate |
| CacheOutputProperties.CorruptEntryRunsActionAndStays | WebAPI.OutputCache/CacheOutputAttribute.cs:120-121 | a cached non-string value without a matching tag runs the action and stays in the store unchanged |
| CacheOutputProperties.BodyOnlyLookup | WebAPI.OutputCache/CacheOutputAttribute.cs:120-131 | with a string body stored and neither content type nor tag, the lookup serves the body with the read-back type and no tag if that type parses, and fails otherwise |
| CacheOutputProperties.ReaderBetweenWritesFallsBack | WebAPI.OutputCache/CacheOutputAttribute.cs:123-131 | when the path and query hold no colon, a reader that sees the body but not yet the content type and tag is served the body with the negotiated media type and no tag |
| CacheOutputProperties.ReaderBetweenWritesMisreadsColonInQuery | WebAPI.OutputCache/CacheOutputAttribute.cs:123-124 | the same reader for `/teams?at=10:30` negotiated to `application/json` reads back `30` and fails to parse it |
| CacheOutputProperties.ReaderBetweenWritesMislabelsColonInPath | WebAPI.OutputCache/CacheOutputAttribute.cs:123-129 | the same reader for `/a:b/c` negotiated to `application/json` is served the body labelled `b/c` |
| CacheOutputProperties.CorrectedReaderBetweenWritesFallsBack | WebAPI.OutputCache/CacheOutputAttribute.cs:123-131 | reading the key from its last colon instead serves that reader the negotiated media type whatever the path and query hold |

## Left out

- `EnsureCache` (choosing the store from configuration or dependency resolution, falling back to `MemoryCacheDefault`): wiring; the store is a parameter.
- `GetExpectedMediaType`: it delegates to a content negotiator outside this model; the negotiated media type is a parameter.
- The asynchronous `ReadAsStringAsync().ContinueWith(...)` persistence: the three `Add` calls are returned as pending writes and applied in order; their timing relative to other requests is not modelled.
- The store's own expiry and its `Add` behaviour on a key it already holds: the store holds live entries, each write records its expiration and replaces any earlier value. `MemoryCacheDefault` is not part of this model.
- `Thread.CurrentPrincipal`, `DateTime.Now`, `Guid.NewGuid()`: the authentication flag, the evaluated `CacheTime` and the fresh token are parameters.
- The instance fields `_webApiCache`, `_responseMediaType` and `CacheTimeQuery`, shared by every request the attribute handles: each request gets its own store, media type and time here, so races between requests, and the null references a post-action without a preceding eligible pre-action can hit, are not modelled.
- `ShortTime` and the `CacheOutputUntil*` policies: their code is not part of this model; the filter takes the `CacheTime` they yield as a parameter.
- The `ArgumentNullException` for a null action context, and null responses or content after a failing action: null inputs are not modelled.
- `HttpResponseMessage` construction beyond status, body, content type, ETag and Cache-Control; HTTP methods are an enumeration rather than case-insensitive strings.
- `Serve` assumes the framework skips the action and the post-action filter when the pre-action filter sets a response; that framework code is not part of this model.
- `ThisDayPolicy.Execute`: the `DateTime` kind (local or UTC) is ignored; instants are plain tick counts.
- `CacheKeys.IsMediaTypeSyntax`: the `MediaTypeHeaderValue` constructor throws `ArgumentException` for the empty string and `FormatException` for other malformed text; both are the one decision `BadMediaType` here.
- `CacheOutput.Serve`: its own contract only states that cached replies leave the store alone; what it serves is stated by the lemmas in `CacheOutputProperties`.
- The demo teams controller and the sample test controller: fixtures and a CRUD demo with no caching logic.

## Findings

| source | as written | input that shows it | evidently intended | confidence | as-written member | corrected member |
|---|---|---|---|---|---|---|
| WebAPI.OutputCache/CacheOutputAttribute.cs:124 | with no stored content type, the type is `new MediaTypeHeaderValue(cachekey.Split(':')[1])`, the field after the first colon | `GET /teams?at=10:30` negotiated to `application/json`, read after the body is written but before the content type is: the field is `30`, which is not `type/subtype`, so the constructor throws `FormatException`; for a path such as `/a:b/c` the field `b/c` parses and is served as the wrong content type | the media type the key was built with, the text after the last colon | medium, not executed | CacheOutputProperties.ReaderBetweenWritesMisreadsColonInQuery | CacheOutputProperties.CorrectedReaderBetweenWritesFallsBack |

`CacheOutput.OnActionExecuting` takes the reading as a parameter: the
filter as written (`Serve`) uses `FirstField`, the corrected one
`LastField`. `CacheOutputProperties.ReaderBetweenWritesMislabelsColonInPath`
gives the `b/c` case, and `CacheKeys.SecondFieldAgreesWithoutColonInUri`
shows the two readings agree whenever the path and query hold no colon.
