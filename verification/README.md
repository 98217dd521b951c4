# Reiver's protocols and algorithms, verified

Reiver is an observability and LLM-gateway platform. Most of its code moves data between services; this project
models the parts that carry a promise of their own, and proves those promises for all inputs and all runs.

- **Redis protocols.** The billing lock (a token under a TTL, released late, twice or never), the retry loop around
  it, and the fixed-window rate counters driven by two Lua scripts. Redis is a map from key to value and expiry, read
  against a clock (`Redis.dfy`); each script is one atomic step, and crashes, lost replies and lost releases are steps
  too (`BillingLock.dfy`, `LockRetry.dfy`, `RateLimit.dfy`, `RateLimitRuns.dfy`, `RateLimitSharp.dfy`,
  `RateLimitKeys.dfy`, with the counting argument in `Pigeonhole.dfy`).
- **Caches.** The two-tier query cache, of one process and across many (`QueryCache.dfy`, `QueryCacheRuns.dfy`), the
  read-through cache as a run system of its own (`ReadThrough.dfy`), and its two instances: project keys
  (`ProjectKeyCache.dfy`) and provider keys, where a batch lookup has to agree with single ones (`ProviderKeys.dfy`,
  `Providers.dfy`).
- **Transformations.** `flatten_oneof_schema` (`SchemaFlatten.dfy`) and what it does to the meaning of a schema
  (`SchemaMeaning.dfy`, `SchemaUnions.dfy`, `SchemaReferences.dfy`, `SchemaTagStrings.dfy`, `SchemaTagOrder.dfy`, with a
  validator in `SchemaValidator.dfy`); `escape_clickhouse_string` and the reader that undoes it (`ClickHouseText.dfy`).
- **Text algorithms.** The normalisers of the prompt-injection scan (`SpacedChars.dfy`, `CharRuns.dfy`,
  `Normalise.dfy`, `Typoglycemia.dfy`), and PII spans and their redaction (`PiiSpans.dfy`, `PiiRedact.dfy`).
- **Accounting.** Credits of tool calls, checked before and logged after each call (`Metering.dfy`, `CreditRuns.dfy`,
  `CreditCap.dfy`, `CreditCalls.dfy`), and staged rollouts (`Rollout.dfy`, `RolloutRuns.dfy`).

Code that changes things is a method, or a class whose methods say what the new state is; step systems say what
interleavings of those changes can do. Times are whole seconds (milliseconds in the retry loop). Hashes stand for the
text they hash, fresh UUIDs for values never used before, and the matches of a regular expression for a given list.

Six results are not what the documentation or a first reading of the code suggests:

- A cached query result can outlive its set's TTL plus 60 seconds: `set_cached_query` sends SET and EXPIRE separately,
  so the late EXPIRE of one set prolongs the value of another. `QueryCacheRuns.ReadsAreRecent` proves the bound for every
  value on which no other set's EXPIRE ran, and so for all runs in which no set stores while the EXPIRE of another set of
  that key can still come; a set whose EXPIRE is lost for good does no harm. `QueryCacheRuns.OverlappingSetsBreakTheBound`
  shows that every other overlap can break it.
- `flatten_oneof_schema` takes the first field that all variants fix as the tag, whatever its type. With a field such as a
  constant version in front of a good string tag it loses every variant but the first, or all of them
  (`SchemaUnions.InstanceIsKept`, `SchemaTagOrder.VersionedIsDestroyed`).
- Invalidating a project key does not undo a lookup that is already under way; `ReadThrough.InvalidationSticks` and
  `ReadThrough.StaleFlightUndoesInvalidation` say exactly when the old answer comes back.
- `get_key` and `get_keys_batch` disagree in a few cases; `ProviderKeys.BatchAgreesWithSingle` lists them all.
- A rate limit can be exceeded almost twofold in a span of one window: 2·limit - 1 requests, and no more
  (`RateLimitSharp.SharpSpanBound`, `RateLimitSharp.BoundIsReached`).
- The first two stages of the prompt-injection normaliser are each idempotent, but not one after the other
  (`Normalise.StableUnlessSpacedAgain`, `Normalise.NotIdempotent`).

## Model

| member | source | states |
|---|---|---|
| `BillingLock.AcquireScript` | core/src/rate_limit.rs:1069-1075 | refused exactly when a live entry is there; a grant stores the token for ttl seconds; a TTL of zero is an error that changes nothing |
| `BillingLock.ReleaseScript` | core/src/rate_limit.rs:1084-1090 | removes the key exactly when it is live and holds the caller's token |
| `BillingLock.RunKeepsSound` | core/src/rate_limit.rs:1069-1163 | every run of steps (acquire seen or unseen, release, drop-release, crash, time) keeps: tokens are distinct, each holder's entry is in Redis, each entry belongs to a grant |
| `BillingLock.MutualExclusion` | core/src/rate_limit.rs:1215-1259 | in every reachable state at most one grant of a key is unreleased and younger than its TTL |
| `BillingLock.StaleReleaseIsHarmless` | core/src/rate_limit.rs:1142-1163 | a release, however late or often repeated, leaves the entry of every other grant alone |
| `BillingLock.ReleaseTwiceIsReleaseOnce` | core/src/rate_limit.rs:1111-1163 | `release` followed by the release in `Drop` has the effect of one; what a release removes is its own grant's entry |
| `BillingLock.RefusedOnlyWithinTtl` | core/src/rate_limit.rs:1215-1259 | a key is blocked exactly while some grant's entry is under its TTL, including grants whose client saw only a timeout |
| `LockRetry.BackoffClosedForm` | core/src/rate_limit.rs:1281-1298 | the sleep before retry k+1 is min(2^k, 8) times the initial delay |
| `LockRetry.TotalBackoffInUnits` | core/src/rate_limit.rs:1281-1298 | the summed sleeps are a number of initial delays that does not depend on the delay |
| `LockRetry.UnitsClosedForm` | core/src/rate_limit.rs:1281-1298 | that number is 2^n - 1 up to four retries and 8n - 17 from then on |
| `LockRetry.Scene.HeldUntilExpiryOrRelease` | core/src/rate_limit.rs:1284-1301 | against one other holder, attempt k finds the lock held exactly when the holder has neither expired nor released by then |
| `LockRetry.AcquireWithRetry` | core/src/rate_limit.rs:1273-1304 | at most max_retries sleeps, exactly the backoff sequence; each outcome with the attempt it comes from; a lock obtained is in Redis for ttl; the statement after the loop is never reached |
| `LockRetry.AcquireAgainstOneHolder` | core/src/rate_limit.rs:1273-1304 | without faults and with one other holder the loop succeeds if and only if that holder expires or releases by the last attempt, so whenever the sleeps reach the expiry |
| `RateLimit.AtomicIncr` | core/src/rate_limit.rs:99-107 | one more in the open window, or a fresh window; the counter always ends with an expiry, even one found without, and the TTL returned is that expiry's |
| `RateLimit.DualWindowIncr` | core/src/rate_limit.rs:121-139 | leaves the counters and expiries of two single-window scripts run back to back |
| `RateLimit.TouchesCommute` | core/src/rate_limit.rs:121-139 | on distinct keys the order of the two halves does not matter |
| `RateLimit.CheckDualWindow` | core/src/rate_limit.rs:311-393 | allowed exactly when both counts are within their limits; which window is reported, its reset time and the dropped count; without an answer there is no verdict, and the counters have moved exactly if the script ran |
| `RateLimit.CheckOrgHourly` | core/src/rate_limit.rs:240-299 | the same for the single hour window |
| `RateLimitRuns.Run.WindowIsFixed` | core/src/rate_limit.rs:339-366 | over any run no request moves an open window's end, and the first request at or after it counts as one |
| `RateLimitRuns.Run.CountIsTouches` | core/src/rate_limit.rs:99-139 | the count in a window is the number of requests made in it |
| `RateLimitRuns.Run.EntryAfter` | core/src/rate_limit.rs:99-139 | a counter stays in its window with no smaller count until a window that ends at least one window length later |
| `RateLimitRuns.Run.SpanBound` | core/src/rate_limit.rs:121-139 | any span of n windows, aligned or not, lets at most (n + 1) limits of one counter pass |
| `RateLimitRuns.Run.AlignedSpanBound` | core/src/rate_limit.rs:121-139 | a span that starts where a window opens lets at most n limits pass; one window, at most its limit |
| `RateLimitRuns.Traffic.AnyMinuteAdmitsTwiceTheLimit` | core/src/rate_limit.rs:311-393 | any 60 seconds at all admit at most twice the minute limit of a counter |
| `RateLimitRuns.Traffic.AnyHourAdmitsTwiceTheLimit` | core/src/rate_limit.rs:311-393 | any 3600 seconds at all admit at most twice the hour limit of a counter |
| `RateLimitRuns.MinuteTestPassesPerHour` | core/src/rate_limit.rs:498-572 | at most 61 minute limits pass the minute test inside one hour |
| `RateLimitRuns.HourTestNeverFailsFirst` | core/src/rate_limit.rs:498-572 | with hour limit 60 times the minute limit and windows opening together, without a minute rejection there is no hour rejection |
| `RateLimitRuns.HourTestPassesSixtyLimits` | core/src/rate_limit.rs:498-572 | in an hour window the hour test passes exactly the first 60 times the limit per minute, up to the largest 32-bit number |
| `RateLimitSharp.SharpSpanBound` | core/src/rate_limit.rs:121-139 | from counters the scripts can leave, any span of n windows lets at most (n + 1)·limit - 1 requests of one counter pass |
| `RateLimitSharp.AnyMinuteAdmitsLess` | core/src/rate_limit.rs:311-393 | so any 60 seconds admit at most 2·limit - 1 requests |
| `RateLimitSharp.AnyHourAdmitsLess` | core/src/rate_limit.rs:311-393 | and any 3600 seconds at most 2·limit - 1 of the hour limit |
| `RateLimitSharp.AnyHourPassesMinuteTestLess` | core/src/rate_limit.rs:498-572 | and at most 61·limit - 1 requests pass the minute test in an hour |
| `RateLimitSharp.BoundIsReached` | core/src/rate_limit.rs:121-139 | for every limit and n some traffic from an empty store passes exactly (n + 1)·limit - 1 times in n minutes |
| `RateLimitSharp.MinuteBoundIsReached` | core/src/rate_limit.rs:311-393 | some traffic has exactly 2·limit - 1 requests admitted in 60 seconds |
| `RateLimitSharp.HourOfMinutesIsReached` | core/src/rate_limit.rs:498-572 | some traffic passes the minute test exactly 61·limit - 1 times in an hour |
| `RateLimitSharp.Serve` | core/src/rate_limit.rs:311-393 | checking a traffic's requests in turn moves Redis as the run system says and allows exactly the admitted ones |
| `RateLimitKeys.KeyIsInjective` | core/src/rate_limit.rs:13-27 | two keys are equal exactly for the same window, limit value and user, so limit types of one user share a counter exactly when their limits are equal |
| `RateLimitKeys.ItoaReadsBack` | core/src/rate_limit.rs:13-16 | the limit in a key reads back as the limit |
| `QueryCache.SameKeyForSameText` | core/src/query_cache.rs:71-79 | two requests share their cached result exactly when query and parameters concatenate to the same text, wherever it is cut |
| `QueryCache.Process.Get` | core/src/query_cache.rs:88-131 | a fresh local entry answers alone; a Redis entry answers and is kept locally for 60 seconds; an expired local entry is removed; fails when Redis is needed and cannot be reached, or when the text found does not deserialise |
| `QueryCache.Process.Set` | core/src/query_cache.rs:138-172 | the local tier is filled for the TTL in any case; Redis holds the value with its TTL, without one when the EXPIRE is lost, or nothing new |
| `QueryCache.SetThenGet` | core/src/query_cache.rs:88-172 | a get of the same text by the process that set it replies with the value set exactly until the TTL of 60, 300 or 900 seconds has passed, and then with a miss, or an error without Redis |
| `QueryCache.SetThenGetElsewhere` | core/src/query_cache.rs:88-172 | a get by a process with nothing of its own does so too once both commands of the set got through; a set that lost its EXPIRE never expires, one that lost its SET is a miss |
| `QueryCache.GetThenGet` | core/src/query_cache.rs:113-127 | what Redis answered is answered locally for 60 seconds more, even without Redis |
| `QueryCacheRuns.SetIsItsSteps` | core/src/query_cache.rs:138-172 | the steps of an undisturbed set, with any of its commands lost, leave both tiers as the sequential set does, and the other processes alone |
| `QueryCacheRuns.GetIsItsSteps` | core/src/query_cache.rs:88-131 | the steps of an undisturbed get leave what the sequential get leaves and read the text it finds |
| `QueryCacheRuns.ReplyIsRead` | core/src/query_cache.rs:88-131 | and what the get replies is what those steps read |
| `QueryCacheRuns.StepKeepsSound` | core/src/query_cache.rs:88-172 | every command of every get and set of every process, lost commands, dead clients and evictions keep each cached copy tied to the set that wrote it and to an EXPIRE that ran on it |
| `QueryCacheRuns.ReadsAreRecent` | core/src/query_cache.rs:88-172 | a value read was stored by a set of the reader's concatenated text; once that set's EXPIRE ran, the read is within 60 seconds and the read lag of a deadline set by that EXPIRE or another one that ran on its value; within its own TTL plus that if no other one did, and so whenever no set stores while the EXPIRE of another set of the key can still come |
| `QueryCacheRuns.OverlappingSetsBreakTheBound` | core/src/query_cache.rs:138-172 | from every reachable state in which the EXPIRE of a set of the key can still come when another stores, a run goes on to a read beyond that other set's TTL plus 60 seconds |
| `QueryCacheRuns.OverlapHappens` | core/src/query_cache.rs:138-172 | two sets of one key reach such a state |
| `ReadThrough.AllRecent` | core/src/utils.rs:62-135 | in every state of every run each cached or pending answer was the database's answer within its TTL plus the lag |
| `ReadThrough.AnswersAreRecent` | core/src/utils.rs:62-135 | every answer handed out was the database's answer no longer ago than its TTL plus the lag |
| `ReadThrough.NextLookupReadsDatabase` | core/src/utils.rs:137-152 | after an invalidation with no cache write of the key still to come, not even one whose lookup has replied, the cache has nothing for it until the next lookup |
| `ReadThrough.InvalidationSticks` | core/src/utils.rs:137-152 | without a write still to come that carries an outdated answer, whatever is cached after an invalidation is current until the database changes |
| `ReadThrough.StaleFlightUndoesInvalidation` | core/src/utils.rs:137-152 | with such a write it brings the outdated answer back |
| `ProjectKeyCache.Validate` | core/src/utils.rs:62-135 | a readable cached answer is returned and nothing changes; with nothing cached a listed key is answered with its own project and any other rejected, cached for 300 and 60 seconds; cached texts that are no UUID count as a miss; every combination of commands that fail |
| `ProjectKeyCache.ValidateAfterInvalidate` | core/src/utils.rs:137-152 | with nothing in flight the first lookup after an invalidation gives the current answer, whatever was cached |
| `ProjectKeyCache.AcceptedKeyWasValid` | core/src/utils.rs:62-135 | under any interleaving an accepted key was the database's answer within the last 300 seconds plus the lag |
| `ProjectKeyCache.RejectedKeyWasInvalid` | core/src/utils.rs:62-135 | a rejection was the database's answer within the last 60 seconds plus the lag |
| `ProjectKeyCache.LookupIsARun` | core/src/utils.rs:62-135 | an undisturbed lookup, with any of its commands failing, is a run of that system: it ends with the cache that `Validate` leaves and gives the answer that `Validate` gives |
| `Providers.ParseAsStr` | flow/src/gateway/provider_types.rs:306-344 | `from_str` accepts exactly the names `as_str` gives, each for its own provider |
| `ProviderKeys.SettingNamesProvider` | flow/src/app_state.rs:520-545 | the prefix and suffix stripped from a setting name give back the provider name it was built from |
| `ProviderKeys.KeyStore.GetKey` | flow/src/app_state.rs:389-478 | the answer and the new cache in every case, over the rows themselves: the cached key, the decrypted row with its base URL, the platform key, or none; database failures included; the cache never holds a platform key |
| `ProviderKeys.KeyStore.GetKeysBatch` | flow/src/app_state.rs:485-587 | the whole result map and the new cache over the rows themselves, and the error case; rows may come in any order; the cache never holds a platform key |
| `ProviderKeys.SaveThenGetKey` | flow/src/app_state.rs:389-478 | a key saved under the provider's setting, encrypted, is the key a lookup gives, as the project's own, and caches for 60 seconds |
| `ProviderKeys.SaveThenGetBatch` | flow/src/app_state.rs:485-587 | and what a batch gives and caches, among whatever other providers |
| `ProviderKeys.BatchAgreesWithSingle` | flow/src/app_state.rs:389-587 | from the same cache, rows and instant both give a provider the same key if and only if it is cached, or no base URL and no platform key standing in for an unreadable key are involved |
| `ProviderKeys.BatchCachesWhatSinglesCache` | flow/src/app_state.rs:389-587 | one batch leaves exactly the cache that single lookups of its providers in turn leave |
| `ProviderKeys.BatchAgreesWithSinglesInTurn` | flow/src/app_state.rs:389-587 | and gives what they give, repeated providers included, under that condition; a first lookup outside it always differs |
| `ProviderKeys.OwnKeyIsRecent` | flow/src/app_state.rs:389-587 | under any interleaving of lookups, key changes and evictions, a project key handed out was the stored one within the last 60 seconds plus the lag |
| `ProviderKeys.BatchIsARun` | flow/src/app_state.rs:520-567 | what a batch does to the cache is a run of that system, so the bound covers it |
| `ProviderKeys.ReiverIsWellNamed` | flow/src/gateway/provider_types.rs:49-82 | the provider names meet what those results ask of names |
| `SchemaFlatten.FlattenOneofSchema` | mcp/src/registry.rs:19-134 | the loops compute the specification: resolved variants, the first field that is a tag of all of them, fields as the first variant has them, tag strings in order, and every case in which the schema is left alone |
| `SchemaReferences.ReferenceResolves` | mcp/src/registry.rs:35-45 | a variant that refers to a name resolves to the object under that name in the definitions, and to nothing if there is none |
| `SchemaReferences.FlattenFollowsReferences` | mcp/src/registry.rs:35-134 | flattening a schema of references gives the tag, fields and tag strings that flattening it with the definitions written out gives |
| `SchemaReferences.OneOfComesFirst` | mcp/src/registry.rs:22-33 | an anyOf beside a oneOf makes no difference and is removed with it |
| `SchemaMeaning.LeftAlone` | mcp/src/registry.rs:53-90 | a schema is left alone exactly when no variant resolves or no field is a tag of all that do, whatever the key order |
| `SchemaMeaning.FlattenIsIdempotent` | mcp/src/registry.rs:22-33 | flattening twice is flattening once, on every schema; a changed schema has neither oneOf nor anyOf |
| `SchemaMeaning.MergedField` | mcp/src/registry.rs:92-111 | the merged fields are the non-tag fields of all variants, each as the first variant that has it says |
| `SchemaMeaning.TagValuesAre` | mcp/src/registry.rs:92-111 | the tag enum holds exactly the variants' tag strings |
| `SchemaTagStrings.TagValuesInOrder` | mcp/src/registry.rs:92-111 | in the order of the variants |
| `SchemaTagStrings.TagStringIs` | mcp/src/registry.rs:97-103 | a string const is the tag string; otherwise the first value of the enum, if it is a string |
| `SchemaTagStrings.JoinedSplits` | mcp/src/registry.rs:113-121 | the description lists the tag strings with a comma and a space between neighbours |
| `SchemaUnions.TagsSeparate` | mcp/src/registry.rs:58-85 | variants with a required string tag that share an instance have the same tag string |
| `SchemaUnions.FirstTagIs` | mcp/src/registry.rs:58-85 | the field taken as tag is the first in key order that all variants fix, whatever its type |
| `SchemaValidator.DraftIsSound` | mcp/src/registry.rs:11-18 | a recursive validator of const, enum, type, properties, required, oneOf, anyOf and references meets what the following rows ask of every validator |
| `SchemaValidator.DraftIsCoherent` | mcp/src/registry.rs:35-45 | and what they ask for a schema, for every schema whose variants are written out or refer to definitions without a union of their own |
| `SchemaValidator.ReferenceIsDefinition` | mcp/src/registry.rs:35-45 | under that validator a reference to a definition means the definition |
| `SchemaUnions.UnionInstancesStayValid` | mcp/src/registry.rs:92-134 | for variants with a required string tag that agree on their other fields, an instance valid under the union that uses only its own variant's fields is valid under the flat schema, if no other field that all variants fix comes before the tag |
| `SchemaUnions.InstanceIsKept` | mcp/src/registry.rs:58-134 | with distinct tag strings, an instance is kept if and only if that holds, or it belongs to the first variant and has a string in the field that came first |
| `SchemaTagOrder.KeptInEveryOrder` | mcp/src/registry.rs:58-134 | an instance of a variant other than the first is kept in every key order exactly when the variants fix no field but the tag |
| `SchemaTagOrder.VersionedIsDestroyed` | mcp/src/registry.rs:58-134 | a union with a good string tag and a version number fixed in front of it: an instance passes the union, nothing passes the flat schema |
| `SchemaUnions.FlatInstancesNameAVariant` | mcp/src/registry.rs:113-134 | an instance valid under the flat schema is an object whose tag names some variant |
| `SchemaUnions.FlatteningLosesOnlyRequired` | mcp/src/registry.rs:92-134 | when the tag comes first, for an instance with a variant's tag and fields, the union says exactly what the flat schema says together with that variant's required fields and remaining keywords |
| `ClickHouseText.EscapeClickHouseString` | core/src/utils.rs:174-190 | the loop escapes character by character |
| `ClickHouseText.EscapeAt` | core/src/utils.rs:178-188 | every character is escaped at its place, between the escapes of what is before and after it |
| `ClickHouseText.EscapesOfSix` | core/src/utils.rs:180-185 | newline, return, tab, quote and backslash become a backslash and one character, NUL goes |
| `ClickHouseText.OthersAreCopied` | core/src/utils.rs:186 | every other character is copied as it is |
| `ClickHouseText.EscapeIsPrintable` | core/src/utils.rs:180-185 | an escaped text holds no NUL, newline, return or tab |
| `ClickHouseText.QuotesAreEscaped` | core/src/utils.rs:180-185 | every quote in an escaped text has an odd number of backslashes directly before it |
| `ClickHouseText.ReadThroughEscaped` | core/src/utils.rs:174-190 | a reader of quoted literals goes through an escaped text and gives it back without its NULs, whatever follows |
| `ClickHouseText.ReadQuotedEscape` | core/src/utils.rs:174-190 | reading stops exactly at the closing quote, unless the reader takes doubled quotes and another quote follows directly: then, and only then, not |
| `ClickHouseText.EscapeDistributes` | core/src/utils.rs:174-190 | escaping a concatenation is concatenating the escapes |
| `ClickHouseText.EscapeAtMostDoubles` | core/src/utils.rs:174-176 | the result fits the capacity reserved, twice the input's bytes |
| `ClickHouseText.EscapeKeepsTextsApart` | core/src/utils.rs:174-190 | texts with equal escapes differ in NULs at most |
| `SpacedChars.CollapseSpacedChars` | core/src/prompt_injection.rs:119-156 | the three nested loops end and compute the specification |
| `SpacedChars.CollapseDropsOnlySpaces` | core/src/prompt_injection.rs:119-156 | the result is the text with some spaces deleted |
| `SpacedChars.CollapseKeepsNonSpaces` | core/src/prompt_injection.rs:119-156 | the other characters are kept, in order |
| `SpacedChars.CollapseRemovesSpacedTriples` | core/src/prompt_injection.rs:119-156 | the result has no three letters separated by spaces of which the later two stand alone, and a text is unchanged exactly when it has none |
| `SpacedChars.CollapseIsIdempotent` | core/src/prompt_injection.rs:119-156 | collapsing twice is collapsing once |
| `CharRuns.CollapseCharRepetition` | core/src/prompt_injection.rs:161-180 | the loops compute the specification |
| `CharRuns.SqueezeSquashesRuns` | core/src/prompt_injection.rs:161-180 | the runs of the result are the runs of the text, letter runs of three or more cut to one and all others as they were |
| `CharRuns.SqueezeIsSquashing` | core/src/prompt_injection.rs:161-180 | and the result is determined by that |
| `CharRuns.SqueezeIsIdempotent` | core/src/prompt_injection.rs:161-180 | squeezing twice is squeezing once |
| `CharRuns.SqueezeHasNoLetterTriple` | core/src/prompt_injection.rs:161-180 | no three equal letters in a row remain |
| `Normalise.StableUnlessSpacedAgain` | core/src/prompt_injection.rs:94-98 | the two stages one after the other are stable exactly when squeezing brought no new spaced letters about |
| `Normalise.SecondPassShortens` | core/src/prompt_injection.rs:94-98 | a second pass that changes anything shortens the text |
| `Normalise.NotIdempotent` | core/src/prompt_injection.rs:94-98 | "x yyy z" becomes "x y z", which a second pass changes |
| `Typoglycemia.IsVariant` | core/src/prompt_injection.rs:184-202 | same byte length of at least four, same ends, different word, same inner characters in any order; the slices never run backwards |
| `Typoglycemia.SwappedIsVariant` | core/src/prompt_injection.rs:184-202 | swapping two different inner characters of a word of four bytes or more makes a variant of it |
| `Typoglycemia.OtherLettersAreNoVariant` | core/src/prompt_injection.rs:184-202 | words whose inner letters differ are no variants of each other |
| `Typoglycemia.NoVariant` | core/src/prompt_injection.rs:185-195 | nor are words that differ at an end, equal words and words of less than four bytes |
| `Typoglycemia.CorrectedMeans` | core/src/prompt_injection.rs:94-115 | the correction is a canonical word the word is a variant of, or the word itself when there is none |
| `Typoglycemia.OrderDoesNotMatter` | core/src/prompt_injection.rs:94-115 | the correction is the same whatever the order of the canonical list |
| `Typoglycemia.CanonicalWordsStay` | core/src/prompt_injection.rs:94-115 | a canonical word is never changed |
| `Typoglycemia.CanonicalEndsAreDistinct` | core/src/prompt_injection.rs:46-59 | no two canonical words share both ends, which is what the last two rest on |
| `PiiSpans.FindSpans` | core/src/pii.rs:121-160 | strictly ordered, disjoint spans inside the text, and exactly the validated matches that overlap no earlier chosen one |
| `PiiSpans.ChosenIsMaximal` | core/src/pii.rs:121-160 | every validated match overlaps a chosen one of the same or a higher priority |
| `PiiSpans.ChosenAreDisjoint` | core/src/pii.rs:121-160 | chosen matches never overlap |
| `PiiRedact.RedactIfChanged` | core/src/pii.rs:188-211 | slices never run backwards; every gap is copied, every span replaced by its label; nothing for short or clean texts |
| `PiiRedact.RedactOne` | core/src/pii.rs:151-211 | a single match is replaced by the label of its pattern: [EMAIL], [CARD], [SSN], [PHONE] for both phone formats, [IP]; texts under 8 bytes are left alone |
| `PiiRedact.DetectPii` | core/src/pii.rs:168-184 | the types of the spans, each once, in order of first appearance |
| `PiiRedact.DetectOne` | core/src/pii.rs:151-184 | a single match is reported as the type of its pattern |
| `PiiRedact.DistinctInOrder` | core/src/pii.rs:168-184 | types are listed in the order in which they first appear |
| `PiiRedact.MaskPii` | core/src/pii.rs:214-219 | the redacted text, or the text itself when nothing is found |
| `PiiRedact.RedactAgreesWithDetect` | core/src/pii.rs:168-211 | redaction happens exactly when something is detected, and the labels are of exactly the detected types |
| `PiiRedact.RedactedLength` | core/src/pii.rs:188-211 | the length changes by the labels put in and the spans taken out |
| `PiiRedact.RedactionHidesTheSpans` | core/src/pii.rs:188-211 | texts that differ only inside the spans are redacted to the same text |
| `Metering.CreditWeight` | mcp/src/metering.rs:37-43 | analyze costs 2, execute 3, every other tool 1 |
| `Metering.ExecuteActionWeight` | mcp/src/metering.rs:46-55 | report-class words give 5 and win over the compiler words, which give 10; 3 otherwise |
| `Metering.Weight` | mcp/src/metering.rs:146-152 | every call costs between 1 and 10 |
| `Metering.KeyDeterminesCall` | mcp/src/metering.rs:154 | idempotency keys are equal exactly for the same tool and execution id |
| `Metering.CreditLog.CheckCreditAllowance` | mcp/src/metering.rs:62-115 | with a database, an organisation, a known limit from 0 on and no confirmed subscription, denied exactly when the credits logged since the month began are at the limit or over; without one of these never denied |
| `Metering.CreditLog.EmitCreditEvent` | mcp/src/metering.rs:125-194 | the call's cost is metered, and logged under its key at most once; metered also when the log entry cannot be written |
| `Metering.CreditLog.CallTool` | mcp/src/registry.rs:255-298 | unknown tools, missing scopes, denials and failures leave the log alone; exactly the successful calls whose entry can be written are logged |
| `CreditRuns.CheckSawMonth` | mcp/src/metering.rs:88-112 | a check that passes saw less than the limit in the current month, even if the month changed since it read the clock |
| `CreditRuns.StepKeepsSound` | mcp/src/registry.rs:283-296 | every step keeps: credits logged this month plus 10 per call in flight are within the cap, and the log is the calls' costs |
| `CreditRuns.MonthIsCapped` | mcp/src/metering.rs:62-115 | with limit at least 1 and at most k calls between check and log, no month ever holds more than limit - 1 + 10k credits |
| `CreditRuns.CallsAreCountedOnce` | mcp/src/metering.rs:125-180 | every logged call has exactly one entry, every entry a call, and a month's sum is the sum of its calls' costs, repeated inserts included |
| `CreditCap.CapIsReached` | mcp/src/metering.rs:62-115 | for every limit and k some run logs exactly limit - 1 + 10k credits: the cap cannot be lowered |
| `CreditCalls.CheckIsPasses` | mcp/src/metering.rs:62-115 | for a free-tier organisation the check allows a call exactly when the step system lets it pass |
| `CreditCalls.CallToolIsARun` | mcp/src/registry.rs:255-298 | an undisturbed tool call of a free-tier organisation is a run of the step system: arrive, check, then fail, or succeed and insert; it leaves the log that run leaves |
| `Rollout.Database.IsFinalStage` | flow/src/rollout_worker.rs:552-566 | of a planned rollout of n stages exactly stage n - 1 is final, which is exactly the one with weight 100 |
| `Rollout.Database.PromoteToNextStage` | flow/src/rollout_worker.rs:569-628 | succeeds exactly when no statement fails and there is a next stage; a failed transaction changes nothing |
| `Rollout.Database.CompleteRollout` | flow/src/rollout_worker.rs:631-675 | all open stages pass, the target version becomes active and the weight 100, or nothing changes |
| `Rollout.Database.RollbackRollout` | flow/src/rollout_worker.rs:678-712 | the active stage fails and the weight becomes 0, or nothing changes |
| `Rollout.ValidateRolloutStages` | flow/src/api/llm_rollouts.rs:1028-1056 | accepts exactly non-empty, positive, strictly ascending plans that end in 100 |
| `Rollout.PlanFor` | flow/src/api/llm_rollouts.rs:1059-1161 | creation goes on exactly with the default stages or with a valid plan of the caller's, and always with a good plan |
| `Rollout.PlanIsShort` | flow/src/api/llm_rollouts.rs:1028-1056 | such a plan has at most 100 stages |
| `RolloutRuns.CreateKeepsSound` | flow/src/api/llm_rollouts.rs:974-1006 | a new rollout's stages are numbered from 0 and pending |
| `RolloutRuns.StartKeepsSound` | flow/src/api/llm_rollouts.rs:1462-1521 | a started rollout is at stage 0 with that stage's weight |
| `RolloutRuns.AlwaysSound` | flow/src/rollout_worker.rs:569-712 | in every state of every run of any number of rollouts: earlier stages passed, the current one active, later ones pending, the weight the current stage's; completed and rolled back ones as they must be |
| `RolloutRuns.OthersAreUntouched` | flow/src/rollout_worker.rs:569-712 | a step of one rollout leaves the rows of all others alone |
| `RolloutRuns.PromotionsAreFewerThanStages` | flow/src/rollout_worker.rs:569-628 | a rollout of n stages is promoted at most n - 1 times in any run, and n is at most 100 |
| `RolloutRuns.ActiveVersionIsLastCompleted` | flow/src/rollout_worker.rs:631-712 | over any run a configuration's active version is the target of its last completed rollout; rollbacks and failures never change it |
| `RolloutRuns.WeightOnlyFallsOnRollback` | flow/src/rollout_worker.rs:569-712 | the weight stays in 0 to 100, grows with every start and promotion and falls only to 0, on rollback |
| `RolloutRuns.CompletionIsTotal` | flow/src/rollout_worker.rs:631-675 | completion leaves every stage passed, weight 100 and the target version active |
| `RolloutRuns.RollbackFailsOneStage` | flow/src/rollout_worker.rs:678-712 | rollback leaves exactly one failed stage, the current one, weight 0 and the active version untouched |
| `RolloutRuns.OutcomeIsFinal` | flow/src/rollout_worker.rs:631-712 | the rows of a completed or rolled back rollout never change again |

## Left out

- Connection pools, wall-clock timeouts, tracing, Kafka, HTTP, telemetry and configuration: a command that fails or times out is a parameter or a step.
- SHA, BLAKE3, UUID generation, decryption, regular expressions, the Luhn and SSN validators, Unicode tables and lower-casing: parameters, given lists or fresh values.
- RateLimit.CheckDualWindow: models time in whole seconds; Redis rounds TTLs, so in the last half second of a window it can report a TTL of 0, and the fallback reset times apply then. Counters are unbounded integers, not 32-bit ones.
- LockRetry.AcquireWithRetry: does not model 64-bit overflow of `retry_delay_ms * 8`.
- That regular expressions match on UTF-8 character boundaries, so that slicing a text at a span is allowed: PII texts are sequences of bytes here.
- ClickHouseText.ReadQuotedEscape: models the grammar of quoted literals with backslash escapes, not ClickHouse's whole lexer.
- ProviderKeys.OwnKeyIsRecent: the lag between reading a key and caching it comes on top of the 60 seconds, because the expiry is counted from the second clock reading.
- SchemaReferences.FlattenFollowsReferences: definitions that are references again are followed one step only by the code, so writing them out would be followed further; they are excluded here.
- SchemaUnions.FlatteningLosesOnlyRequired: keywords that look across others, such as `additionalProperties` next to `properties`, are not spelled out; a schema's remaining keywords are judged on their own.
- The gateway, ingestion and other rate-limit wrappers, which differ from the modelled ones in key prefixes and limits only.
- Pattern and project-wide invalidation of the query cache: keys are hashes, so a pattern on the project id does not describe them.
- The approval, PII-setting, span-metrics and organisation caches: the read-through shape of the project-key cache again.
- The last stage of `normalize_for_injection_scan` as a whole text: words are corrected one by one here, and splitting at white space and joining again is not modelled.
- The Base64 scan, the injection patterns and their scores.
- The Stripe side of metering, and other organisations' rows in the credit log, which the sum does not read.
- Rollout steps on stale rows, pausing and resuming, and the manual endpoints beside the worker: the code does not guard against the first.
- Metrics collection, `compare_metrics`, `stage_duration_elapsed` and `percentage_change`: single comparisons.
- Scope checks, tool listing and the registry's handlers: small lookups.
