/** mnemonic/news/utils/cache_utils.py: the read-through download cache of
    article pages, the HTTP cache storage that refuses error responses, and
    the disk caches (one LSM key-value store per cache name) that
    `DiskCacheManager` fills from a configured source function. */
module CacheUtils {
  import opened Wrappers
  import opened Text
  import opened PyValues

  const ArticleCacheDir := "data/cache/articles/"
  const DiskCacheRoot := "state/disk_cache/"
  const DiskCacheSeenTweets := "seen_tweets"

  predicate StartsWith(s: string, prefix: string) {
    |prefix| <= |s| && s[..|prefix|] == prefix
  }

  /** `os.path.join(a, b)` on POSIX: an absolute `b` replaces `a`, otherwise
      a separator is put in unless `a` is empty or already ends in one. */
  function PathJoin(a: string, b: string): (r: string)
    ensures StartsWith(b, "/") ==> r == b
    ensures !StartsWith(b, "/") && a != [] && a[|a| - 1] == '/' ==> r == a + b
    ensures !StartsWith(b, "/") && a != [] && a[|a| - 1] != '/' ==> r == a + "/" + b
    ensures !StartsWith(b, "/") && a == [] ==> r == b
  {
    if StartsWith(b, "/") then b
    else if a == [] || a[|a| - 1] == '/' then a + b
    else a + "/" + b
  }

  // ---- DownloadCache ----

  /** The files of the article cache: path to text content. */
  class FileSystem {
    var files: map<string, string>

    constructor (files: map<string, string>)
      ensures this.files == files
    {
      this.files := files;
    }
  }

  /** What `cache` is handed: the text of a page, or the raw bytes of a
      response body. */
  datatype Body = Text(text: string) | Raw(bytes: seq<byte>)

  /** What `cache` writes: the text itself, or `str(html)` for anything else,
      which for bytes is their `b'...'` repr, not their decoding. */
  function StoredText(html: Body): (r: string)
    ensures html.Text? ==> r == html.text
    ensures html.Raw? ==> r == BytesStr(html.bytes) && r[0] == 'b'
  {
    match html
    case Text(s) => s
    case Raw(b) => BytesStr(b)
  }

  /** The cache file of a URL: named after the MD5 hex digest of the URL as
      given, not of its normalised form. */
  function CachePathOf(url: string, md5Hex: seq<byte> -> string): string {
    PathJoin(ArticleCacheDir, md5Hex(Utf8Encode(url)))
  }

  /** Two spellings of one page that normalise alike are fetched from the
      same address but cached apart unless their digests agree. */
  lemma CacheKeyIsOriginalUrl(url1: string, url2: string, md5Hex: seq<byte> -> string)
    requires md5Hex(Utf8Encode(url1)) != md5Hex(Utf8Encode(url2))
    requires !StartsWith(md5Hex(Utf8Encode(url1)), "/") && !StartsWith(md5Hex(Utf8Encode(url2)), "/")
    ensures CachePathOf(url1, md5Hex) != CachePathOf(url2, md5Hex)
  {
    var h1, h2 := md5Hex(Utf8Encode(url1)), md5Hex(Utf8Encode(url2));
    var p1, p2 := CachePathOf(url1, md5Hex), CachePathOf(url2, md5Hex);
    assert p1 == ArticleCacheDir + h1 && p2 == ArticleCacheDir + h2;
    assert p1[|ArticleCacheDir|..] == h1 && p2[|ArticleCacheDir|..] == h2;
  }

  /** What a text-mode `open(path).read()` makes of a file's text under
      universal newlines: `\r\n` and a lone `\r` each become `\n`. */
  function UniversalNewlines(s: string): (r: string)
    ensures forall i :: 0 <= i < |r| ==> r[i] != '\r'
    ensures (forall i :: 0 <= i < |s| ==> s[i] != '\r') ==> r == s
    ensures |r| <= |s|
    decreases |s|
  {
    if s == [] then []
    else if s[0] == '\r' then
      var rest := if |s| > 1 && s[1] == '\n' then s[2..] else s[1..];
      var tail := UniversalNewlines(rest);
      assert forall i :: 1 <= i < 1 + |tail| ==> (['\n'] + tail)[i] == tail[i - 1];
      ['\n'] + tail
    else
      var tail := UniversalNewlines(s[1..]);
      assert forall i :: 1 <= i < 1 + |tail| ==> ([s[0]] + tail)[i] == tail[i - 1];
      assert (forall i :: 0 <= i < |s| ==> s[i] != '\r') ==> (forall i :: 0 <= i < |s[1..]| ==> s[1..][i] != '\r');
      [s[0]] + tail
  }

  /** Reading a file back a second time changes nothing more: the
      translation is idempotent. */
  lemma UniversalNewlinesIdempotent(s: string)
    ensures UniversalNewlines(UniversalNewlines(s)) == UniversalNewlines(s)
  {
  }

  /** `get` on the cache as it stands: the content and the files afterwards.
      A cached page is read back and nothing is fetched; otherwise the
      normalised URL is fetched (`fetch` stands for `requests.get(url).text`,
      which may raise) and the text is cached and returned. */
  function GetFrom(files: map<string, string>, path: string, url: string, fetch: string -> Result<string>)
    : (r: (Result<string>, map<string, string>))
    ensures path in files ==> r == (Success(UniversalNewlines(files[path])), files)
    ensures path !in files && fetch(url).Failure? ==> r == (fetch(url), files)
    ensures path !in files && fetch(url).Success? ==> r == (fetch(url), files[path := fetch(url).value])
  {
    if path in files then (Success(UniversalNewlines(files[path])), files)
    else
      match fetch(url)
      case Failure(e) => (Failure(e), files)
      case Success(html) => (Success(html), files[path := StoredText(Text(html))])
  }

  /** Once `get` has succeeded the page is cached: a second `get` returns
      the first text as the file reads it back, with its newlines
      translated, without fetching and leaving the files as they are; and
      that text is what every later `get` returns too. */
  lemma GetIsReadThrough(files: map<string, string>, path: string, url: string, fetch: string -> Result<string>,
                         fetchAgain: string -> Result<string>)
    requires GetFrom(files, path, url, fetch).0.Success?
    ensures var (first, after) := GetFrom(files, path, url, fetch);
      && path in after
      && GetFrom(after, path, url, fetchAgain) == (Success(UniversalNewlines(first.value)), after)
      && UniversalNewlines(GetFrom(after, path, url, fetchAgain).0.value) == GetFrom(after, path, url, fetchAgain).0.value
  {
    var (first, after) := GetFrom(files, path, url, fetch);
    UniversalNewlinesIdempotent(after[path]);
    if path in files {
      UniversalNewlinesIdempotent(files[path]);
    }
  }

  /** `DownloadCache(url)` over the file system it reads and writes. */
  class DownloadCache {
    const originalUrl: string
    const url: string
    const urlHash: string
    const cachePath: string
    const fs: FileSystem

    /** `__init__`; `normalize` stands for `normalize_url` and `md5Hex` for
        `hashlib.md5(_).hexdigest()`. */
    constructor (url: string, normalize: string -> string, md5Hex: seq<byte> -> string, fs: FileSystem)
      ensures originalUrl == url && this.url == normalize(url)
      ensures urlHash == md5Hex(Utf8Encode(url))
      ensures cachePath == CachePathOf(url, md5Hex) && this.fs == fs
    {
      originalUrl := url;
      this.url := normalize(url);
      urlHash := md5Hex(Utf8Encode(url));
      cachePath := PathJoin(ArticleCacheDir, md5Hex(Utf8Encode(url)));
      this.fs := fs;
    }

    /** `is_cached` */
    predicate IsCached()
      reads this, fs
    {
      cachePath in fs.files
    }

    /** `cache(html)`: the file at `cache_path` holds the text afterwards,
        whatever it held before. */
    method Cache(html: Body)
      modifies fs
      ensures fs.files == old(fs.files)[cachePath := StoredText(html)]
      ensures IsCached()
    {
      var text := match html case Text(s) => s case Raw(b) => BytesStr(b);
      fs.files := fs.files[cachePath := text];
    }

    /** `get` */
    method Get(fetch: string -> Result<string>) returns (r: Result<string>)
      modifies fs
      ensures (r, fs.files) == GetFrom(old(fs.files), cachePath, url, fetch)
    {
      if IsCached() {
        return Success(UniversalNewlines(fs.files[cachePath]));
      }
      r := fetch(url);
      if r.Success? {
        Cache(Text(r.value));
      }
    }
  }

  // ---- DownloadCacheStorage ----

  /** A scrapy response, as far as the storage looks at it. */
  datatype Response = Response(status: int, url: string, body: seq<byte>)

  /** `retrieve_response`: what the file-system cache holds for the request,
      except that an error response (status 400 or above) counts as a miss. */
  function RetrieveResponse(stored: Option<Response>): (r: Option<Response>)
    ensures stored.None? ==> r.None?
    ensures stored.Some? && stored.value.status >= 400 ==> r.None?
    ensures stored.Some? && stored.value.status < 400 ==> r == stored
  {
    if stored.Some? && stored.value.status >= 400 then None else stored
  }

  /** A response served from the cache is never an error response, and a
      non-error response is always served. */
  lemma RetrievedIsNeverAnError(stored: Option<Response>)
    ensures RetrieveResponse(stored).Some? <==> stored.Some? && stored.value.status < 400
    ensures RetrieveResponse(stored).Some? ==> RetrieveResponse(stored).value.status < 400
  {
  }

  /** `store_response`'s own part: the body of the response goes to the
      article cache of the request's URL, which after a redirect is not the
      response's (the scrapy store that follows is not part of this model).
      The body is bytes, so the file gets their repr. */
  method StoreResponse(requestUrl: string, response: Response, normalize: string -> string,
                       md5Hex: seq<byte> -> string, fs: FileSystem)
    modifies fs
    ensures fs.files == old(fs.files)[CachePathOf(requestUrl, md5Hex) := BytesStr(response.body)]
  {
    var dc := new DownloadCache(requestUrl, normalize, md5Hex, fs);
    dc.Cache(Raw(response.body));
  }

  /** What `store_response` wrote is what a later `DownloadCache(url).get()`
      for the same request URL reads back, with no fetch. */
  lemma StoredResponseIsReadBack(files: map<string, string>, requestUrl: string, response: Response,
                                 normalize: string -> string, md5Hex: seq<byte> -> string,
                                 fetch: string -> Result<string>)
    ensures var after := files[CachePathOf(requestUrl, md5Hex) := BytesStr(response.body)];
      GetFrom(after, CachePathOf(requestUrl, md5Hex), normalize(requestUrl), fetch)
        == (Success(BytesStr(response.body)), after)
  {
  }

  // ---- DiskCacheManager ----

  /** An entry of `settings.DISK_CACHES`: the dotted path of the source
      function and the cache type. */
  datatype DiskCacheConfig = DiskCacheConfig(fn: string, kind: string)

  const DiskCaches: map<string, DiskCacheConfig> := map[
    DiskCacheSeenTweets := DiskCacheConfig("mnemonic.news.utils.twitter_utils.update_seen_tweets_disk_cache", "set")
  ]

  /** `DISK_CACHE_ROOT + name + '.ldb'` */
  function DiskCachePath(name: string): (r: string)
    ensures |r| == |DiskCacheRoot| + |name| + 4
    ensures StartsWith(r, DiskCacheRoot)
    ensures r[|DiskCacheRoot|..|r| - 4] == name && r[|r| - 4..] == ".ldb"
  {
    DiskCacheRoot + name + ".ldb"
  }

  /** Every cache name has its own store. */
  lemma DiskCachePathInjective(a: string, b: string)
    requires DiskCachePath(a) == DiskCachePath(b)
    ensures a == b
  {
    var pa, pb := DiskCachePath(a), DiskCachePath(b);
    assert a == pa[|DiskCacheRoot|..|pa| - 4] == pb[|DiskCacheRoot|..|pb| - 4] == b;
  }

  /** An LSM store, as the map from key to value it persists. */
  type Store = map<Value, bool>

  const UnknownCacheError := Error("KeyError", "unknown disk cache")

  /** `cache.update({item: True for item in items})` */
  function MarkAll(store: Store, items: seq<Value>): (r: Store)
    requires forall i :: 0 <= i < |items| ==> Hashable(items[i])
    ensures store.Keys <= r.Keys
    decreases |items|
  {
    if items == [] then store
    else MarkAll(store[items[0] := true], items[1..])
  }

  /** Every item maps to True afterwards, every other key keeps its value,
      nothing is removed and nothing else is added. */
  lemma {:induction false} MarkAllMeaning(store: Store, items: seq<Value>)
    requires forall i :: 0 <= i < |items| ==> Hashable(items[i])
    ensures var r := MarkAll(store, items);
      && r.Keys == store.Keys + (set i | 0 <= i < |items| :: items[i])
      && (forall i :: 0 <= i < |items| ==> r[items[i]])
      && (forall k :: k in store && k !in items ==> r[k] == store[k])
    decreases |items|
  {
    if items != [] {
      var rest := items[1..];
      MarkAllMeaning(store[items[0] := true], rest);
      var r := MarkAll(store, items);
      var all, later := set i | 0 <= i < |items| :: items[i], set i | 0 <= i < |rest| :: rest[i];
      assert all == {items[0]} + later by {
        forall x | x in all ensures x in {items[0]} + later {
          var i :| 0 <= i < |items| && items[i] == x;
          if i > 0 {
            assert rest[i - 1] == x;
          }
        }
      }
      forall i | 0 <= i < |items| ensures r[items[i]] {
        if i > 0 {
          assert items[i] == rest[i - 1];
        }
      }
    }
  }

  /** The stores of all disk caches, by path. */
  class DiskCacheManager {
    var stores: map<string, Store>

    constructor (stores: map<string, Store>)
      ensures this.stores == stores
    {
      this.stores := stores;
    }

    /** `get(name)`: opens the store at the cache's path, creating it empty
        if it does not exist yet. Returns its path. */
    method Get(name: string) returns (path: string)
      modifies this
      ensures path == DiskCachePath(name)
      ensures path in stores
      ensures stores == old(stores)[path := if path in old(stores) then old(stores)[path] else map[]]
    {
      path := DiskCacheRoot + name + ".ldb";
      if path !in stores {
        stores := stores[path := map[]];
      }
    }

    /** `update(name, **kwargs)`: looks the cache up in `settings.
        DISK_CACHES` (KeyError for an unknown name), calls its source
        function with the keyword arguments as given (`source(fn, kwargs)`
        stands for resolving the dotted path and calling the function),
        opens the store and, for a `'set'` cache, marks every item True. */
    method Update(name: string, kwargs: map<string, Value>, source: (string, map<string, Value>) -> Result<seq<Value>>)
      returns (r: Outcome)
      modifies this
      ensures name !in DiskCaches ==> r == Fail(UnknownCacheError) && stores == old(stores)
      ensures name in DiskCaches && source(DiskCaches[name].fn, kwargs).Failure? ==>
        r == Fail(source(DiskCaches[name].fn, kwargs).error) && stores == old(stores)
      ensures name in DiskCaches && source(DiskCaches[name].fn, kwargs).Success? ==>
        var path := DiskCachePath(name);
        var existing := if path in old(stores) then old(stores)[path] else map[];
        var items := source(DiskCaches[name].fn, kwargs).value;
        && (DiskCaches[name].kind != "set" ==> r == Pass && stores == old(stores)[path := existing])
        && (DiskCaches[name].kind == "set" && (exists i | 0 <= i < |items| :: !Hashable(items[i])) ==>
              r == Fail(UnhashableError) && stores == old(stores)[path := existing])
        && (DiskCaches[name].kind == "set" && (forall i | 0 <= i < |items| :: Hashable(items[i])) ==>
              r == Pass && stores == old(stores)[path := MarkAll(existing, items)])
    {
      if name !in DiskCaches {
        return Fail(UnknownCacheError);
      }
      var cfg := DiskCaches[name];
      var data := source(cfg.fn, kwargs);
      if data.Failure? {
        return Fail(data.error);
      }
      var path := Get(name);
      if cfg.kind != "set" {
        return Pass;
      }
      var items := data.value;
      if exists i | 0 <= i < |items| :: !Hashable(items[i]) {
        return Fail(UnhashableError);
      }
      MarkAllIn(path, items);
      r := Pass;
    }

    /** The loop of `cache.update(...)` on the opened store. */
    method MarkAllIn(path: string, items: seq<Value>)
      requires path in stores
      requires forall i :: 0 <= i < |items| ==> Hashable(items[i])
      modifies this
      ensures stores == old(stores)[path := MarkAll(old(stores[path]), items)]
    {
      var i := 0;
      assert items[0..] == items;
      while i < |items|
        invariant 0 <= i <= |items|
        invariant path in stores
        invariant stores == old(stores)[path := stores[path]]
        invariant MarkAll(stores[path], items[i..]) == MarkAll(old(stores[path]), items)
      {
        assert items[i..][1..] == items[i + 1..];
        stores := stores[path := stores[path][items[i] := true]];
        i := i + 1;
      }
      assert items[i..] == [];
    }
  }

  /** The seen-tweets cache is a set cache: a successful update leaves every
      tweet id its source returned marked True and loses no earlier id. */
  lemma SeenTweetsUpdateKeepsAndAdds(existing: Store, items: seq<Value>, k: Value)
    requires forall i :: 0 <= i < |items| ==> Hashable(items[i])
    requires k in existing || k in items
    ensures DiskCaches[DiskCacheSeenTweets].kind == "set"
    ensures k in MarkAll(existing, items)
    ensures k in items ==> MarkAll(existing, items)[k]
  {
    MarkAllMeaning(existing, items);
    if k in items {
      var i :| 0 <= i < |items| && items[i] == k;
    }
  }
}
