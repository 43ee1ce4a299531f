# Mnemonic crawl-and-index core, modelled in Dafny

Mnemonic is a Django news aggregator. It crawls RSS feeds and Twitter, keeps
articles and tweets in a database and pushes them to an Elasticsearch
`news` index. This project models the pipeline's own logic:

- the msgpack datetime hooks and the record buffer that a Twitter crawl
  writes to and replays;
- the search signature and the file names derived from it;
- chunking;
- the database router;
- the download and disk caches;
- the per-database object cache, the one-by-one `bulk_create` fallback and
  the offset-paginated `queryset_iterator`;
- the index document and its retry policy;
- the Elasticsearch query builder;
- the `TwitterJob`, `Article` and `Feed` operations;
- the `TwitterEntity` crawl loop.

Each source module becomes one Dafny module:

| Dafny file | source file |
|---|---|
| `msgpack_utils.dfy` | `mnemonic/news/utils/msgpack_utils.py` |
| `twitter_utils.dfy` | `mnemonic/news/utils/twitter_utils.py` |
| `iter_utils.dfy` | `mnemonic/news/utils/iter_utils.py` |
| `db_routers.dfy` | `mnemonic/core/db_routers.py` |
| `cache_utils.dfy` | `mnemonic/news/utils/cache_utils.py` and its settings in `mnemonic/news/app_settings.py` |
| `queryset_utils.dfy` | `mnemonic/news/utils/queryset_utils.py` |
| `search_indices.dfy` | `mnemonic/news/search_indices.py` |
| `search_utils.dfy` | `mnemonic/news/utils/search_utils.py` |
| `news_models.dfy` | the `Feed`, `Article` and `TwitterJob` operations of `mnemonic/news/models.py` |
| `entity_twitter.dfy` | `mnemonic/entity/models/twitter.py` |

The support modules are:

- `wrappers.dfy`: Option, Result and Outcome, where Outcome means "completes or raises an `Error`".
- `py_values.dfy`: Python's dynamic values, truthiness, hashability and `repr` of bytes.
- `text.dfy`: UTF-8 encoding and strict decoding.
- `date_format.dfy`: `strftime` and `strptime` for the formats the code uses.
- `arith.dfy`: a few division facts.

Objects whose fields the source updates in place are classes:

- `CrawlBuffer`, with its file store;
- `DownloadCache` and its file system;
- `DiskCacheManager`;
- `CachedManager`;
- the tweet and article tables;
- `TwitterJob`, `Article` and `Feed`;
- the Elasticsearch connection holder.

Each method on these classes states its new state through a specification
function of the old state. The properties are proved about those functions.

Python exceptions are `Error(class, message)` values, and every raise is an
explicit failure path. Services the code calls but does not define are
function parameters:

- twint's search;
- HTTP fetches;
- the ORM's `create`/`save`;
- Elasticsearch's `count` and hits;
- `slugify`, `normalize_url` and `md5`;
- `datetime.fromtimestamp` and `fromisoformat`;
- the `%Z` strptime;
- `feedparser` time conversion;
- the imported job functions.

## Model

| member | source | states |
|---|---|---|
| MsgpackUtils.EncodeDateTime | mnemonic/news/utils/msgpack_utils.py:21-24 | a datetime becomes `{'__datetime__': True, 'as_str': <bytes>}`, where the bytes are exactly the ASCII `%Y%m%dT%H:%M:%S.%f` text; any other value passes through unchanged |
| MsgpackUtils.DecodeDateTime | mnemonic/news/utils/msgpack_utils.py:9-18 | a dict without the tag comes back unchanged; with the tag it becomes a naive datetime exactly when `as_str` is text (or UTF-8 bytes) that parses, and None otherwise |
| MsgpackUtils.DecodeDateTimeHook | mnemonic/news/utils/msgpack_utils.py:9-18 | the hook returns `DecodeDateTime` of the dict it got, and it leaves that dict with `as_str` rewritten from bytes to text when the bytes decoded |
| MsgpackUtils.Pack | mnemonic/news/utils/msgpack_utils.py:27-28 | the `default` hook, applied through the value tree, leaves only values msgpack can serialize: no datetimes and no tuples |
| MsgpackUtils.DecodeEncodeDateTime | mnemonic/news/utils/msgpack_utils.py:9-24 | decoding the dict that `encode_datetime` made gives back the same datetime, without its time zone |
| MsgpackUtils.UnpackPackDateTime | mnemonic/news/utils/msgpack_utils.py:27-32 | `loads(dumps(dt))` is `dt` made naive |
| MsgpackUtils.UnpackPack | mnemonic/news/utils/msgpack_utils.py:27-32 | `loads(dumps(v)) == v` for every value whose datetimes are valid and naive, that holds no tuple, and no dict of which already has a `__datetime__` key |
| MsgpackUtils.AwareDateTimeComesBackNaive | mnemonic/news/utils/msgpack_utils.py:21-32 | a datetime that carries a time zone does not survive the round trip: it comes back naive |
| MsgpackUtils.TupleComesBackAsList | mnemonic/news/utils/msgpack_utils.py:27-32 | a tuple comes back as a list with the same items |
| MsgpackUtils.TagIsKeyPresence | mnemonic/news/utils/msgpack_utils.py:10-17 | only the presence of `__datetime__` matters, not its value: with the tag but no `as_str` the hook gives None; with a stamp it gives the datetime |
| MsgpackUtils.PyDict.constructor | mnemonic/news/utils/msgpack_utils.py:9 | the mutable dict the hook receives holds the given items |
| DateFormat.DecimalValueOfDigits | mnemonic/news/utils/msgpack_utils.py:14 | reading back a zero-padded decimal field that `strftime` wrote gives the number |
| DateFormat.CompactStampIsAscii | mnemonic/news/utils/msgpack_utils.py:23 | the `%Y%m%dT%H:%M:%S.%f` text of any datetime is pure ASCII, so `.encode()` keeps one byte per character |
| DateFormat.CompactStampMatches | mnemonic/news/utils/msgpack_utils.py:14 | `strptime`'s regular expression, tried in its own alternative order, matches the whole stamp and splits it into the fields `strftime` wrote |
| DateFormat.StrptimeOfCompactStamp | mnemonic/news/utils/msgpack_utils.py:14 | `strptime(strftime(dt))` with the compact format is `dt` made naive, for every valid datetime |
| Text.AsciiRoundTrip | mnemonic/news/utils/msgpack_utils.py:12-13 | ASCII text encodes to the same code points, byte for byte, and strict UTF-8 decoding gives it back |
| PyValues.BytesStr | mnemonic/news/utils/cache_utils.py:27-28 | `str(b)` of bytes is their repr: it starts with `b`, it is at least three characters longer than the bytes, and every character is printable ASCII, so control bytes such as `\r` are escaped |
| TwitterUtils.GetCrawlFname | mnemonic/news/utils/twitter_utils.py:9-11 | the file name is the template's prefix, then the slug of the `_`-joined signature parts, then the template's suffix |
| TwitterUtils.SignatureTokens | mnemonic/news/utils/twitter_utils.py:33-51 | the signature is the user name (or `@user` for mentions), then the seconds-precision `since`, then `until`, each only when given |
| TwitterUtils.LimitAndLanguageShareFiles | mnemonic/news/utils/twitter_utils.py:42-58 | `limit` and `language` are not part of the signature: two crawls that differ only in these share both the results file and the resume file |
| TwitterUtils.BufferAndResumeNamesDiffer | mnemonic/news/utils/twitter_utils.py:16-58 | the buffer file and the resume file of a search are never the same file |
| TwitterUtils.RecordStore.constructor | mnemonic/news/utils/twitter_utils.py:17 | the store of buffer files starts with the given contents |
| TwitterUtils.AppendRun | mnemonic/news/utils/twitter_utils.py:17-20 | opening in append mode and writing a run leaves the file holding what it had, followed by the run |
| TwitterUtils.PackAll | mnemonic/news/utils/twitter_utils.py:19-20 | one packed record per tweet, in order: each is `dumps(vars(tweet))` |
| TwitterUtils.ReplayOfAppended | mnemonic/news/utils/twitter_utils.py:19-29 | replaying the records written for a run of tweets gives back exactly those tweets, with no error |
| TwitterUtils.UpdatePair | mnemonic/news/utils/twitter_utils.py:28 | a list or tuple of two with a string name, and a two-character string (name and value its characters), are pairs; a scalar element is not a sequence and raises a TypeError; a dict of other than two keys has the wrong length and raises a ValueError; a two-key dict is refused (see Left out) |
| TwitterUtils.UpdateFromPairsMeaning | mnemonic/news/utils/twitter_utils.py:28 | `dict.update` with a pair sequence raises exactly when some element is not a pair, with the first such element's error; otherwise the names are the old ones plus the pairs', the last pair with a name sets its value, and other names keep theirs |
| TwitterUtils.Attributes | mnemonic/news/utils/twitter_utils.py:27-28 | a fresh tweet updated with a record gets a mapping's items, a list's or tuple's pairs, or nothing for an empty string or bytes; a non-empty string raises ValueError, non-empty bytes and scalars raise TypeError |
| TwitterUtils.ReplayUnpacks | mnemonic/news/utils/twitter_utils.py:25-29 | each replayed tweet's attributes are those its record sets; replay passes if and only if every record can update a tweet, and otherwise stops at the first that cannot, with that record's error |
| TwitterUtils.ReplayAppend | mnemonic/news/utils/twitter_utils.py:25-29 | replaying two runs one after the other is replaying each, when the first replays cleanly |
| TwitterUtils.ReplayKeepsEarlierRuns | mnemonic/news/utils/twitter_utils.py:17-29 | an append-mode buffer replays the tweets of earlier runs first, then the new ones |
| TwitterUtils.CrawlBuffer.constructor | mnemonic/news/utils/twitter_utils.py:15-17 | the buffer names its file from the signature and opens it for appending; a missing file is created empty and other files are left as they were |
| TwitterUtils.CrawlBuffer.Append | mnemonic/news/utils/twitter_utils.py:19-20 | on an open buffer, one packed record is appended to its file and nothing else changes; on a closed one the write fails and nothing changes |
| TwitterUtils.CrawlBuffer.AppendAll | mnemonic/news/utils/twitter_utils.py:19-20 | appending tweets one by one leaves the file extended by their packed records, in order |
| TwitterUtils.CrawlBuffer.GetData | mnemonic/news/utils/twitter_utils.py:22-29 | the buffer is closed, and the tweets yielded are the replay of the whole file, previous runs included |
| TwitterUtils.GetTweetsForUsername | mnemonic/news/utils/twitter_utils.py:33-61 | the twint config searches the signature and resumes from the resume file; the buffer file gains the search results, or nothing when `only_cached`; the tweets returned are the replay of that file |
| IterUtils.Chunks | mnemonic/news/utils/iter_utils.py:4-12 | every chunk is non-empty and holds at most `chunksize` items; every chunk but the last is full; size 0 or no items give no chunks |
| IterUtils.FlattenChunks | mnemonic/news/utils/iter_utils.py:4-12 | the chunks, concatenated, are the original items in order |
| IterUtils.ChunkCount | mnemonic/news/utils/iter_utils.py:4-12 | there are `ceil(n / chunksize)` chunks |
| IterUtils.ChunksStep | mnemonic/news/utils/iter_utils.py:7-12 | the first chunk is the first `min(n, chunksize)` items, and the rest is the chunking of what follows |
| IterUtils.NextChunk | mnemonic/news/utils/iter_utils.py:7-9 | `islice` takes the next `min(remaining, chunksize)` items from the current position |
| IterUtils.Chunkify | mnemonic/news/utils/iter_utils.py:4-12 | a negative size raises islice's ValueError; otherwise the generator yields exactly `Chunks(items, chunksize)` |
| DbRouters.GetAttr | mnemonic/core/db_routers.py:3 | `getattr(model, name, default)`: the attribute when the class has it, the default otherwise |
| DbRouters.DbForRead | mnemonic/core/db_routers.py:2-3 | reads go to the model's `use_db`, or to None (no opinion) when the model has none |
| DbRouters.DbForWrite | mnemonic/core/db_routers.py:5-6 | writes go to the model's `use_db`, or to None when the model has none |
| DbRouters.ReadAndWriteAgree | mnemonic/core/db_routers.py:2-6 | a model is read from and written to the same database, whatever the hints |
| DbRouters.AllowMigrate | mnemonic/core/db_routers.py:8-9 | migrations run exactly on the `default` database |
| DbRouters.RoutedModelsAreNotMigratedThere | mnemonic/core/db_routers.py:2-9 | a model routed to another database is never migrated on that database |
| CacheUtils.PathJoin | mnemonic/news/utils/cache_utils.py:21 | `os.path.join`: an absolute second part replaces the first; an empty first part gives the second; a first part ending in `/` is followed directly by the second; any other is joined to it with one `/` |
| CacheUtils.FileSystem.constructor | mnemonic/news/utils/cache_utils.py:16-21 | the file system starts with the given files |
| CacheUtils.StoredText | mnemonic/news/utils/cache_utils.py:26-31 | text is stored as is, while bytes are stored as their `str()`, the `b'...'` repr |
| CacheUtils.CacheKeyIsOriginalUrl | mnemonic/news/utils/cache_utils.py:16-21 | the cache file is named from the md5 of the URL as given, not the normalized URL, so URLs with different hashes get different files |
| CacheUtils.UniversalNewlines | mnemonic/news/utils/cache_utils.py:33-34 | the text-mode read turns `\r\n` and a lone `\r` into `\n`: no `\r` is left, text without `\r` is read as written, and nothing grows |
| CacheUtils.UniversalNewlinesIdempotent | mnemonic/news/utils/cache_utils.py:33-34 | translating newlines twice is translating them once |
| CacheUtils.GetFrom | mnemonic/news/utils/cache_utils.py:33-43 | a cached file is served, read back with its newlines translated, without fetching; a miss fetches the normalized URL and caches the text on success; a failed fetch raises and caches nothing |
| CacheUtils.GetIsReadThrough | mnemonic/news/utils/cache_utils.py:33-43 | after one successful `get`, the next `get` returns the first text with its newlines translated, read from the file whatever the network would now say, and changes nothing; that text is stable, so every later `get` returns it too |
| CacheUtils.DownloadCache.constructor | mnemonic/news/utils/cache_utils.py:16-21 | the cache keeps the original URL, its normalized form, the md5 of the original and the file path under the article cache directory |
| CacheUtils.DownloadCache.Cache | mnemonic/news/utils/cache_utils.py:26-31 | the cache file is overwritten with the stored text, and the page is then cached |
| CacheUtils.DownloadCache.Get | mnemonic/news/utils/cache_utils.py:36-43 | the result and the new files are exactly `GetFrom` of the old files |
| CacheUtils.RetrieveResponse | mnemonic/news/utils/cache_utils.py:51-56 | a stored response comes back only when it is not an HTTP error (status below 400) |
| CacheUtils.RetrievedIsNeverAnError | mnemonic/news/utils/cache_utils.py:51-56 | a response comes back if and only if one is stored with status below 400 |
| CacheUtils.StoreResponse | mnemonic/news/utils/cache_utils.py:46-49 | the response body, as its bytes repr, is written to the file of the request's URL, and nothing else changes |
| CacheUtils.StoredResponseIsReadBack | mnemonic/news/utils/cache_utils.py:23-49 | after a response is stored for a request, a cache lookup for the request's URL is served that body from the file, without fetching and without changing the files |
| CacheUtils.DiskCachePath | mnemonic/news/utils/cache_utils.py:61-63 | the store path is the disk cache root, the cache name and `.ldb` |
| CacheUtils.DiskCachePathInjective | mnemonic/news/utils/cache_utils.py:61-63 | different cache names never share a store |
| CacheUtils.MarkAllMeaning | mnemonic/news/utils/cache_utils.py:71-73 | after the update, the keys are the old keys plus the items; every item maps to True; other keys keep their values |
| CacheUtils.DiskCacheManager.constructor | mnemonic/news/utils/cache_utils.py:58-63 | the manager starts with the given open stores |
| CacheUtils.DiskCacheManager.Get | mnemonic/news/utils/cache_utils.py:61-63 | the store at the cache's path is opened, created empty if missing; other stores are untouched |
| CacheUtils.DiskCacheManager.Update | mnemonic/news/utils/cache_utils.py:66-73 | an unknown cache name raises KeyError and a failing source raises its error, neither touching anything; a `set` cache gets every item marked True, or TypeError for an unhashable item; any other kind only opens the store |
| CacheUtils.DiskCacheManager.MarkAllIn | mnemonic/news/utils/cache_utils.py:71-73 | the store at the path becomes `MarkAll` of itself, and the others are unchanged |
| CacheUtils.SeenTweetsUpdateKeepsAndAdds | mnemonic/news/app_settings.py:6-13 | `seen_tweets` is a `set` cache: updating it loses no key and marks every new item True |
| QuerysetUtils.LookupWith | mnemonic/news/utils/queryset_utils.py:22-29 | no keyword raises StopIteration; an unhashable value raises TypeError; a hit returns the cached object without a query; a miss queries, and on success stores the object under the key the variant chooses; other databases' caches are untouched |
| QuerysetUtils.AsWrittenRepeatMisses | mnemonic/news/utils/queryset_utils.py:25-28 | as written, repeating the same successful `get_cached` queries the database again |
| QuerysetUtils.AsWrittenServesWrongObject | mnemonic/news/utils/queryset_utils.py:25-28 | as written, a later call whose value equals the earlier field name is served the earlier object without a query |
| QuerysetUtils.FixedRepeatHits | mnemonic/news/utils/queryset_utils.py:22-29 | with the object stored under the looked-up value, a repeated call is a hit that returns the same object and leaves the cache as it is |
| QuerysetUtils.CachedManager.constructor | mnemonic/news/utils/queryset_utils.py:17-18 | a manager starts with an empty cache |
| QuerysetUtils.CachedManager.ClearCache | mnemonic/news/utils/queryset_utils.py:19-20 | the cache is emptied |
| QuerysetUtils.CachedManager.GetCached | mnemonic/news/utils/queryset_utils.py:22-29 | the result and the new cache are those of the corrected lookup, so a repeated call is served from the cache |
| QuerysetUtils.ClearedCacheMisses | mnemonic/news/utils/queryset_utils.py:19-29 | after `clear_cache`, both the as-written and the corrected lookup go to the database |
| QuerysetUtils.Fallback | mnemonic/news/utils/queryset_utils.py:39-46 | the one-by-one fallback never surfaces a duplicate-key IntegrityError |
| QuerysetUtils.FallbackAppendsInOrder | mnemonic/news/utils/queryset_utils.py:39-46 | the table keeps its rows and gains a subsequence of the objects, in their order |
| QuerysetUtils.FallbackSnoc | mnemonic/news/utils/queryset_utils.py:39-46 | one more object is one more save, against the table the earlier objects left, unless they already raised |
| QuerysetUtils.FallbackByPrefix | mnemonic/news/utils/queryset_utils.py:39-46 | the fallback raises if and only if it reaches an object, all earlier saves passed or refused as duplicates, whose save fails otherwise; then the table is the one that save ran against and the error is that save's; when it passes, each object was saved and appended or refused as a duplicate and skipped, in order |
| QuerysetUtils.DuplicateKeyErrorIsTolerated | mnemonic/news/utils/queryset_utils.py:43 | Postgres's unique-violation message is the one tolerated |
| QuerysetUtils.UniqueKeyFallbackCoversAll | mnemonic/news/utils/queryset_utils.py:39-46 | against a table with a unique key, the fallback completes, and afterwards every object's key is present |
| QuerysetUtils.Table.constructor | mnemonic/news/utils/queryset_utils.py:32 | the table starts with the given rows |
| QuerysetUtils.Table.BulkCreate | mnemonic/news/utils/queryset_utils.py:32-46 | `should_bulk_create` uses the bulk insert; otherwise the objects are saved by the one-by-one fallback |
| QuerysetUtils.NormalizeKey | mnemonic/news/utils/queryset_utils.py:52 | a string key becomes a one-field ordering; a non-empty list is kept; None or an empty list orders by `pk` |
| QuerysetUtils.QuerysetIterator | mnemonic/news/utils/queryset_utils.py:49-62 | size 0 raises ZeroDivisionError and a negative size raises the AssertionError of Django 3.2's negative-slice check; otherwise every row of the ordered queryset is yielded once, in order, with offsets `0, chunksize, 2*chunksize, ...`, `count / chunksize + 1` of them |
| SearchIndices.GetIndexMetaData | mnemonic/news/search_indices.py:43-44 | the document's meta data is exactly its id, the record's uid |
| SearchIndices.GetIndexData | mnemonic/news/search_indices.py:46-57 | a document key is present if and only if its looked-up field is not one of Django's empty values, and then it holds that field |
| SearchIndices.RetryFrom | mnemonic/news/search_indices.py:61-63 | the retry loop makes at most `tries` attempts and sleeps once between consecutive attempts |
| SearchIndices.RetryFromMeaning | mnemonic/news/search_indices.py:61-63 | it stops at the first successful attempt; it re-raises only after every try failed, with the last error; the j-th sleep is `delay * backoff^j` |
| SearchIndices.ZeroTriesNeverCalls | mnemonic/news/search_indices.py:61 | a policy of zero tries never calls the function |
| SearchIndices.Retry | mnemonic/news/search_indices.py:61-63 | the decorator's loop is exactly the retry specification |
| SearchIndices.PushToIndex | mnemonic/news/search_indices.py:59-66 | the document is the meta data plus the index data, and it is saved under `tries=10, delay=1, backoff=2` |
| SearchIndices.PushPolicyBounds | mnemonic/news/search_indices.py:61-66 | a push makes 1 to 10 saves and waits 1, 2, 4, ... seconds; it raises only after ten failed saves |
| SearchUtils.EsConnections.constructor | mnemonic/news/utils/search_utils.py:9 | no client exists at first |
| SearchUtils.EsConnections.GetConnection | mnemonic/news/utils/search_utils.py:12-16 | the first call creates and keeps the client; later calls return the kept one |
| SearchUtils.GetConnectionTwice | mnemonic/news/utils/search_utils.py:12-16 | two calls return the same client, which is the first one created |
| SearchUtils.Matches | mnemonic/news/utils/search_utils.py:34 | one `match` query per value, in order |
| SearchUtils.FilterValues | mnemonic/news/utils/search_utils.py:33-36 | the search gains exactly one `bool`/`should` clause over those matches; everything else stays as it was |
| SearchUtils.DateBounds | mnemonic/news/utils/search_utils.py:52-56 | `gte` is present exactly when the first start date is truthy, and `lte` likewise for the end date; each holds that date |
| SearchUtils.TextClauses | mnemonic/news/utils/search_utils.py:42-43 | the text part of the search contributes only filter clauses |
| SearchUtils.ValuesClauses | mnemonic/news/utils/search_utils.py:44-50 | the value filters contribute only `bool`/`should` queries |
| SearchUtils.RangeClauses | mnemonic/news/utils/search_utils.py:51-57 | the date filter contributes only range queries |
| SearchUtils.AddDateRange | mnemonic/news/utils/search_utils.py:51-57 | the search gains the range clauses its dates call for, and nothing else |
| SearchUtils.BuildSearch | mnemonic/news/utils/search_utils.py:39-60 | the search on index `news` is rebound clause by clause, in the source's order, then sorted on `-published_on` |
| SearchUtils.FilterIffQuery | mnemonic/news/utils/search_utils.py:42-43 | there is a filter clause if and only if the first query string is truthy, and then it comes first, over title and body |
| SearchUtils.SourcesClauseIffSources | mnemonic/news/utils/search_utils.py:46-48 | the `source.raw` clause, over newspapers then handles, is present if and only if either list is non-empty |
| SearchUtils.RangeIffDates | mnemonic/news/utils/search_utils.py:51-57 | a range clause is present if and only if a first start or end date is truthy, and then it is the last clause before sorting |
| SearchUtils.SerializeHit | mnemonic/news/utils/search_utils.py:25-30 | the hit's fields plus `meta`, with `published_on` parsed from ISO form; it fails exactly when that parse fails |
| SearchUtils.SerializeSearchResults | mnemonic/news/utils/search_utils.py:24-30 | the hits are serialized in order up to the first one that fails, and that one's error surfaces |
| SearchUtils.GetSearchResults | mnemonic/news/utils/search_utils.py:39-61 | the total is the count of the whole planned search, and the serialized hits are those of its first 100 |
| NewsModels.ConfigDefaults | mnemonic/news/models.py:160-168 | the defaults hold exactly the seven configuration keys |
| NewsModels.CleanedConfig | mnemonic/news/models.py:158-170 | without an entity the property raises AttributeError; otherwise it holds the defaults' keys and the job's, and the job's own values win |
| NewsModels.CleanedConfigDefaults | mnemonic/news/models.py:160-168 | unset keys get the entity's handle, None, or `only_cached` False; `language` defaults to `en` exactly when the job's `mentions` is truthy |
| NewsModels.NormalizeBound | mnemonic/news/models.py:228-231 | a truthy datetime bound becomes its `%Y-%m-%d` text; a falsy bound is left alone; a truthy non-datetime raises AttributeError |
| NewsModels.NormalizeConfigMeaning | mnemonic/news/models.py:228-231 | normalizing succeeds if and only if every truthy bound is a datetime; it then keeps the keys, rewrites only the truthy bounds and leaves every other entry unchanged |
| NewsModels.DayStampStartsSecondsStamp | mnemonic/news/models.py:228-231 | the day stamp a job stores is the first ten characters of the seconds stamp a crawl signature uses |
| NewsModels.CreateStepMeaning | mnemonic/news/models.py:245-259 | crawls only when not yet crawled; pushes only when not yet pushed and the crawl is done or succeeded; flags only turn on; each save writes one flag; success leaves both flags set; a failure is the crawl's or the push's error |
| NewsModels.CreateStepPushesAfterCrawl | mnemonic/news/models.py:245-259 | a job is never pushed to the index before it is crawled |
| NewsModels.CreateIdempotent | mnemonic/news/models.py:245-259 | after a successful `create`, calling it again crawls nothing, pushes nothing and saves nothing |
| NewsModels.TwitterJob.constructor | mnemonic/news/models.py:245 | a job starts with its two flags and no crawl, push or save done |
| NewsModels.TwitterJob.Create | mnemonic/news/models.py:245-259 | the new state and the outcome are those of `CreateStep` |
| NewsModels.Metadata | mnemonic/news/models.py:184-185 | the meta data is every attribute of the tweet except the six non-metadata keys, with its value |
| NewsModels.PublishedOn | mnemonic/news/models.py:180-183 | an `int` datetime is a millisecond timestamp in UTC, anything else is parsed; a missing `datetime` raises AttributeError |
| NewsModels.ReplyNames | mnemonic/news/models.py:196 | a `reply_to` list or tuple gives the names of its items; a str, bytes or dict passes only when empty, giving no names, and otherwise raises a TypeError; a scalar is not iterable and raises a TypeError |
| NewsModels.BulkIndexData | mnemonic/news/models.py:172-200 | a job without an entity raises in `cleaned_config` before any document; otherwise the documents are those of the tweets, with mentions mode decided once from the stored config's `mentions` (absent means off) |
| NewsModels.NamesOf | mnemonic/news/models.py:196 | the mention names exist exactly when every `reply_to` item is a dict with a `name`, and they are those names, in order |
| NewsModels.TweetIndexDocSucceedsIff | mnemonic/news/models.py:179-200 | a tweet's document exists if and only if its time converts, its `reply_to` names exist, and it has `tweet` and `link` |
| NewsModels.TweetIndexDocContents | mnemonic/news/models.py:172-200 | the document has the seven keys, with news type `tweet`, title, URL, time and mention names; the source is the entity's class and name, or a `TwitterUser` and the tweet's `name` in mentions mode |
| NewsModels.IndexDocs | mnemonic/news/models.py:179-200 | the generator yields one document per tweet, in order, up to the first tweet that fails, and that tweet's error surfaces |
| NewsModels.MentionsDocsAreTwitterUsers | mnemonic/news/models.py:173-191 | in a mentions job every document's source type is `TwitterUser` |
| NewsModels.ProcessStepMeaning | mnemonic/news/models.py:120-133 | only a missing body is fetched; only an unpushed article is pushed; a failure saves nothing; success saves once, with exactly the fields that changed, and leaves the article pushed |
| NewsModels.ProcessIdempotent | mnemonic/news/models.py:120-133 | once processed with a body, processing again fetches, pushes and saves nothing |
| NewsModels.Article.constructor | mnemonic/news/models.py:120 | an article starts with its body and its pushed flag, with nothing fetched, pushed or saved |
| NewsModels.Article.Process | mnemonic/news/models.py:120-133 | the new state and the outcome are those of `ProcessStep`, with the body fetched from the article's URL |
| NewsModels.EntryArticle | mnemonic/news/models.py:59-70 | an entry makes an article if and only if it has `link`, `published_parsed` and `title`, and raises a KeyError otherwise; the article has those, the optional summary, the converted time, the feed's top-news flag, and the leftover keys as meta data |
| NewsModels.Urls | mnemonic/news/models.py:59 | the URLs of the rows, in order |
| NewsModels.OnlyAddsAndQueuesStep | mnemonic/news/models.py:64-78 | creating one article and queueing its URL keeps the crawl's add-and-queue invariant |
| NewsModels.CrawlEntriesMeaning | mnemonic/news/models.py:58-78 | the table keeps its rows and gains at most one article per entry; only the articles created are queued for processing; a duplicate-URL IntegrityError never stops the crawl |
| NewsModels.ArticleTable.constructor | mnemonic/news/models.py:64 | the article table starts with the given rows and no queued processing |
| NewsModels.Feed.constructor | mnemonic/news/models.py:52 | a feed keeps its top-news and archive flags |
| NewsModels.CrawlEntriesSnoc | mnemonic/news/models.py:58-78 | one more entry is one more create, against the table and queue the earlier entries left, unless they already raised |
| NewsModels.CrawlEntriesByPrefix | mnemonic/news/models.py:58-78 | the crawl raises if and only if it reaches an entry, every earlier one created or refused as a duplicate, that lacks a key (a KeyError) or whose create fails with another error; then the table and queue are those the earlier entries left and the error is that entry's; when it passes, every entry had its keys and was created and queued, or refused as a duplicate and skipped, in order |
| NewsModels.Feed.CrawlFeed | mnemonic/news/models.py:52-78 | an archive feed changes nothing; any other feed's table and queue become `CrawlEntries` of the parsed entries |
| EntityTwitter.ProcessTweet | mnemonic/entity/models/twitter.py:20-33 | the time converts first, then `id` and `tweet` must exist; the row holds the entity (None exactly in mentions mode), the id, the text, the time, and every other attribute as meta data |
| EntityTwitter.ProcessStreamMeaning | mnemonic/entity/models/twitter.py:47 | the lazy generator transforms tweets in order up to the first failure and surfaces that failure; a clean pass ends with the buffer's own outcome |
| EntityTwitter.FullChunksArePrefix | mnemonic/entity/models/twitter.py:49 | the first k full chunks of a stream do not depend on what comes after them |
| EntityTwitter.StreamChunksMeaning | mnemonic/entity/models/twitter.py:47-50 | the chunks a failing stream yields are its full chunks before the failure, covering all but fewer than 5000 of the rows produced; a clean stream yields all of them |
| EntityTwitter.SavedAreTheNewRows | mnemonic/entity/models/twitter.py:51-55 | when the fallback completes, the rows it added are exactly the objects that got a primary key, in order |
| EntityTwitter.ProcessRowsMeaning | mnemonic/entity/models/twitter.py:52-55 | rows are processed in order up to the first one that raises, which ends the loop; all are processed exactly when none raises |
| EntityTwitter.SaveChunksStops | mnemonic/entity/models/twitter.py:49-55 | a chunk whose save or processing fails ends the loop within the save invariant |
| EntityTwitter.SaveChunksGoesOn | mnemonic/entity/models/twitter.py:49-55 | a chunk that saves and processes cleanly keeps the save invariant for the chunks after it |
| EntityTwitter.SaveChunksMeaning | mnemonic/entity/models/twitter.py:49-55 | the table keeps its rows and gains objects of the chunks in order; only added rows are processed, in the order they were added, and all of them when the loop completes |
| EntityTwitter.CrawlSetupMeaning | mnemonic/entity/models/twitter.py:40-46 | a mentions crawl searches for `@handle` in English; an ordinary crawl reads the handle's timeline in any language |
| EntityTwitter.AppendRunAppendOnly | mnemonic/news/utils/twitter_utils.py:17 | appending a run never removes or rewrites anything already in a buffer file |
| EntityTwitter.CrawlOnceMeaning | mnemonic/entity/models/twitter.py:35-55 | one crawl only appends to buffer files and keeps the table's rows; it processes only the added rows, in order, and all of them on success |
| EntityTwitter.CrawlOnceAddsStreamRows | mnemonic/entity/models/twitter.py:40-55 | the rows one crawl adds are a subsequence of the transformed tweets of its buffer, taken from the start of the stream |
| EntityTwitter.CrawlAllStep | mnemonic/entity/models/twitter.py:64-65 | a failing mode ends the loop there; otherwise the remaining modes follow from the state it left |
| EntityTwitter.CrawlTweetsModes | mnemonic/entity/models/twitter.py:57-65 | without a handle nothing happens; with the default modes the entity's own tweets are crawled first and then, if that succeeds, the tweets mentioning it |
| EntityTwitter.CrawledWellChain | mnemonic/entity/models/twitter.py:64-65 | two crawls one after the other keep the crawl invariant |
| EntityTwitter.CrawlAllMeaning | mnemonic/entity/models/twitter.py:64-65 | the crawl invariant holds over any sequence of modes |
| EntityTwitter.ProcessSaved | mnemonic/entity/models/twitter.py:52-55 | the loop processes exactly the rows that have a primary key, stopping at the first error |
| EntityTwitter.SaveStep | mnemonic/entity/models/twitter.py:50-55 | one chunk is saved and its new rows processed; a failure is where the whole loop ends; otherwise the loop goes on with the remaining chunks |
| EntityTwitter.SaveAll | mnemonic/entity/models/twitter.py:49-55 | the table, the processed rows and the outcome are those of `SaveChunks` |
| EntityTwitter.FetchStream | mnemonic/entity/models/twitter.py:40-47 | the buffer file gains the search results (nothing if only cached), and the stream is the transformed replay of the whole file |
| EntityTwitter.SaveStream | mnemonic/entity/models/twitter.py:49-55 | the table and outcome match `FinishCrawl`: the stream's full chunks are saved, and its own error surfaces last |
| EntityTwitter.CrawlTweetsOnce | mnemonic/entity/models/twitter.py:35-55 | the buffer files, the table, the processed rows and the outcome are those of `CrawlOnce` |
| EntityTwitter.CrawlStep | mnemonic/entity/models/twitter.py:64-65 | one mode is crawled; a failure is where the whole loop ends; otherwise the loop goes on with the remaining modes |
| EntityTwitter.CrawlModes | mnemonic/entity/models/twitter.py:64-65 | the loop over the modes is exactly `CrawlAll` |
| EntityTwitter.CrawlTweets | mnemonic/entity/models/twitter.py:57-65 | the state and outcome are those of `crawl_tweets`' specification, with the default modes `[False, True]` |

## Left out

- The msgpack byte format: packing and unpacking are modelled on values, applying `default` and `object_hook` through the tree. Integer and byte-length limits are not modelled.
- `strptime` with `%Z`, `datetime.fromtimestamp`, `datetime.fromisoformat` and `feedparser`'s `struct_time` conversion are parameters.
- `strftime("%Y")` is modelled as zero-padded to four digits. Some C libraries do not pad years below 1000.
- `slugify`, `normalize_url` and `md5` are parameters. So are twint's search, HTTP fetches, Elasticsearch's `count`, hits and `save`, LevelDB, and the ORM's `create`/`save`/`get`.
- `mnemonic/news/utils/string_utils.py`, `article_utils.py` and `twint` are not part of this model.
- DecodeDateTime: the `\d` in `strptime`'s patterns for `%Y`, `%d`, `%H`, `%M` and `%S` matches any Unicode decimal digit, but the model's `DateFormat.AnyDigit` matches only ASCII `0`-`9`. A stamp written with other digits, such as full-width ones, decodes to None here, while Python parses it.
- Replay: `__dict__.update` with a pair whose name is not a string (an int, a tuple, the first of two bytes, which is an int) sets that name in Python. A `Tweet` here maps strings only, so such a record ends the replay with a TypeError instead.
- TwitterUtils.UpdatePair: a two-key dict element is a pair in Python, its first key naming its second in insertion order. Dict order is not kept in this model, so `UpdatePair` refuses such an element with a TypeError, and the replay of its record stops there.
- TwitterUtils.GetTweetsForUsername: the `@retry(tries=1000)` around it is left out. A crawl is modelled as one attempt.
- Logging, file flushing and closing, and process queues (`process_async` is recorded as a queued URL) are left out.
- The buffer has no capacity flushing, NUL stripping, de-duplication or corruption recovery. The code has none of them either.
- EntityTwitter.ProcessTweet: `mnemonic/entity/models/twitter.py` imports a `Tweet` model from `mnemonic.news.models`, but `mnemonic/news/models.py` defines none. A row is modelled as its field map, and its primary key as "added by the save".
- A tweet object's `process` is a parameter.
- Dict and string iteration order is not kept. A `mentions` argument is modelled by the items its iteration yields (`Modes`).
- QuerysetUtils.Table.BulkCreate: the bulk path's ORM `bulk_create` call is a parameter. `get_first(objs).__class__`, which picks the model, is left out: `mnemonic/news/utils/iter_utils.py` defines no `get_first`, so as written the import at queryset_utils.py:33 raises ImportError on every call. The model lets the import succeed and works on a single table.
- NewsModels.TwitterJob.Create: the job lookup is left out. As written, `objects.get(..., filters=filters)` (models.py:233-237) passes `filters`, which is not a field, so it raises FieldError rather than DoesNotExist, and the `get_or_create` branch is never reached. `crawl_buffer.start_crawl` and `bulk_push_to_index_for_self` are left out too: their outcomes are parameters.
- NewsModels.BulkIndexData: `get_bulk_index_data_for_self` iterates `self.get_index_data()`, which `TwitterJob` inherits from `NewsIndexable` (search_indices.py:46-57). That returns a dict, so the loop runs over its string keys, and `tweet.datetime` on a key raises AttributeError. Which keys survive depends on `string_utils.get`, which is not part of this model. The model iterates the job's tweets, which it takes as a parameter, as the loop body evidently means.
- `bulk_push_to_index_for_self` is left out. It reads `self.BULK_INDEX_CHUNK_SIZE`, which neither `TwitterJob` (mnemonic/news/models.py) nor `NewsIndexable` (mnemonic/news/search_indices.py) defines, and it hands the documents to Elasticsearch's `bulk`.
- `Article.save`'s comparison of the source is left out. `Article.process` writes through a save that is recorded, not modelled.
- Generators are modelled by what they yield up to the first error. Laziness shows up only where it changes behaviour: the chunking of a failing stream.
- The list arguments of `get_search_results` are sequences. A `None` argument is modelled as the empty list, which it behaves like wherever the function looks at it.
- CacheUtils.GetFrom: the file is written and read with `open()`'s locale encoding, and the model takes that to round-trip every character. A page the locale cannot encode or decode fails in Python but not here.
- The Django version is taken to be 3.2 or earlier, since the models import `JSONField` from `django.contrib.postgres.fields`, which Django 4.0 removed. Queryset behaviour follows those versions.
- Integers are unbounded. These operations do no fixed-width arithmetic.

## Findings

| source | as written | input that shows it | evidently intended | confidence | as-written member | corrected member |
|---|---|---|---|---|---|---|
| mnemonic/news/utils/queryset_utils.py:25-28 | `get_cached` looks the cache up by the keyword's value but stores the object under the keyword's name | `get_cached(pk=7)` twice: both calls query the database; a later `get_cached(name='pk')` is served the object with pk 7 | store and look up under the same key, the value, so repeated calls hit | not executed | QuerysetUtils.AsWrittenRepeatMisses | QuerysetUtils.FixedRepeatHits |
