/** mnemonic/entity/models/twitter.py: how an entity with a twitter handle
    crawls its own tweets and the tweets mentioning it, turns each crawled
    tweet into a `Tweet` row, saves the rows in chunks of 5000 and processes
    the rows that were new. The crawl buffer is a `RecordStore`, the tweet
    table a `Table`; the services the crawl talks to are parameters. */
module EntityTwitter {
  import opened Wrappers
  import opened DateFormat
  import opened PyValues
  import opened Arith
  import opened IterUtils
  import opened QuerysetUtils
  import opened TwitterUtils
  import NewsModels

  /** A twitter entity as these methods read it: its class, its name and
      its `twitter_handle`, a CharField and so a string or None. */
  datatype TwitterEntity = TwitterEntity(className: string, name: Value, twitterHandle: Option<string>)

  /** The entity as the value of a row's `entity` field. */
  function EntityValue(self: TwitterEntity): Value {
    VMap(map["class" := VStr(self.className), "name" := self.name,
             "twitter_handle" := if self.twitterHandle.Some? then VStr(self.twitterHandle.value) else VNone])
  }

  const RowKeys: set<string> := {"entity", "tweet_id", "tweet", "published_on", "metadata"}

  // ---- _process_tweet ----

  /** `_process_tweet(tweet, mentions)`: the publication time first (an
      `int` `datetime` is a millisecond timestamp, anything else is parsed;
      both conversions are parameters), then the `Tweet` row with the
      entity (None in mentions mode), the id, the text, the time and every
      other attribute as meta data. */
  function ProcessTweet(self: TwitterEntity, tweet: Tweet, mentions: Value,
                        fromMillis: int -> Value, parseStamp: Value -> Result<Value>): (r: Result<Value>)
    ensures var p := NewsModels.PublishedOn(tweet, fromMillis, parseStamp);
      && (p.Failure? ==> r == Failure(p.error))
      && (p.Success? && "id" !in tweet ==> r == Failure(NewsModels.MissingAttribute("id")))
      && (p.Success? && "id" in tweet && "tweet" !in tweet ==> r == Failure(NewsModels.MissingAttribute("tweet")))
      && (r.Success? <==> p.Success? && "id" in tweet && "tweet" in tweet)
    ensures r.Success? ==> (r.value.VMap? &&
      var row := r.value.entries;
      && row.Keys == RowKeys
      && (row["entity"] == VNone <==> Truthy(mentions))
      && (!Truthy(mentions) ==> row["entity"] == EntityValue(self))
      && row["tweet_id"] == tweet["id"]
      && row["tweet"] == tweet["tweet"]
      && row["published_on"] == NewsModels.PublishedOn(tweet, fromMillis, parseStamp).value
      && row["metadata"].VMap?
      && row["metadata"].entries.Keys == tweet.Keys - NewsModels.NonMetadataKeys
      && (forall k :: k in row["metadata"].entries ==> row["metadata"].entries[k] == tweet[k]))
  {
    match NewsModels.PublishedOn(tweet, fromMillis, parseStamp)
    case Failure(e) => Failure(e)
    case Success(publishedOn) =>
      if "id" !in tweet then Failure(NewsModels.MissingAttribute("id"))
      else if "tweet" !in tweet then Failure(NewsModels.MissingAttribute("tweet"))
      else
        Success(VMap(map[
          "entity" := if Truthy(mentions) then VNone else EntityValue(self),
          "tweet_id" := tweet["id"],
          "tweet" := tweet["tweet"],
          "published_on" := publishedOn,
          "metadata" := VMap(NewsModels.Metadata(tweet))]))
  }

  /** `_process_tweet(_, mentions)` of one entity. */
  function Transform(self: TwitterEntity, mentions: Value, fromMillis: int -> Value,
                     parseStamp: Value -> Result<Value>): Tweet -> Result<Value> {
    (t: Tweet) => ProcessTweet(self, t, mentions, fromMillis, parseStamp)
  }

  /** A generator expression `(transform(t) for t in tweets)` over the
      tweets the buffer replays, `tail` being how the replay ends: the rows
      of the transformed tweets up to the first tweet that cannot be
      transformed, and the error that ends the stream. */
  function ProcessStream(tweets: seq<Tweet>, tail: Outcome, transform: Tweet -> Result<Value>): (r: (seq<Value>, Outcome))
    ensures |r.0| <= |tweets|
    decreases |tweets|
  {
    if tweets == [] then ([], tail)
    else
      match transform(tweets[0])
      case Failure(e) => ([], Fail(e))
      case Success(row) =>
        var rest := ProcessStream(tweets[1..], tail, transform);
        ([row] + rest.0, rest.1)
  }

  /** The stream holds the row of every tweet before the first one that
      cannot be transformed, and ends with that tweet's error; when every
      tweet is transformed it ends as the replay does. */
  lemma {:induction false} ProcessStreamMeaning(tweets: seq<Tweet>, tail: Outcome, transform: Tweet -> Result<Value>)
    ensures var r := ProcessStream(tweets, tail, transform);
      && (forall i :: 0 <= i < |r.0| ==> transform(tweets[i]) == Success(r.0[i]))
      && (|r.0| < |tweets| ==> transform(tweets[|r.0|]).Failure? && r.1 == Fail(transform(tweets[|r.0|]).error))
      && (|r.0| == |tweets| ==> r.1 == tail)
    decreases |tweets|
  {
    if tweets != [] && transform(tweets[0]).Success? {
      ProcessStreamMeaning(tweets[1..], tail, transform);
      var r := ProcessStream(tweets, tail, transform);
      var rest := ProcessStream(tweets[1..], tail, transform);
      assert r.0 == [transform(tweets[0]).value] + rest.0;
      assert forall i :: 1 <= i < |r.0| ==> r.0[i] == rest.0[i - 1] && tweets[i] == tweets[1..][i - 1];
      if |r.0| < |tweets| {
        assert tweets[|r.0|] == tweets[1..][|rest.0|];
      }
    }
  }

  // ---- the chunks of the stream ----

  const ChunkSize := 5000

  /** The chunks `chunkify(tweets, 5000)` hands out before the stream ends:
      all of them when it ends cleanly; otherwise only the full ones, since
      the error surfaces while the next chunk is being drained. */
  function StreamChunks(stream: (seq<Value>, Outcome)): seq<seq<Value>> {
    if stream.1.Pass? then Chunks(stream.0, ChunkSize)
    else Chunks(stream.0[..|stream.0| / ChunkSize * ChunkSize], ChunkSize)
  }

  /** The chunks of the first `k` full chunks' worth of elements are the
      first `k` chunks. */
  lemma {:induction false} FullChunksArePrefix<T>(s: seq<T>, n: nat, k: nat)
    requires n > 0 && k * n <= |s|
    ensures k <= |Chunks(s, n)|
    ensures Chunks(s[..k * n], n) == Chunks(s, n)[..k]
    ensures forall i :: 0 <= i < k ==> |Chunks(s, n)[i]| == n
    decreases k
  {
    if k == 0 {
      assert s[..0] == [];
    } else if k == 1 {
      assert s[..k * n] == s[..n];
      if |s| == n {
        assert s[..n] == s;
      }
    } else {
      var m := (k - 1) * n;
      assert m + n == k * n;
      assert m >= n by { MulAtLeast(k - 1, n); }
      var t := s[..k * n];
      assert t[..n] == s[..n];
      assert t[n..] == s[n..][..m];
      FullChunksArePrefix(s[n..], n, k - 1);
      assert Chunks(s, n) == [s[..n]] + Chunks(s[n..], n);
      assert Chunks(t, n) == [t[..n]] + Chunks(t[n..], n);
    }
  }

  /** What reaches the table: a prefix of the transformed stream, cut into
      chunks of at most 5000; the whole stream when it ends cleanly, and
      otherwise every full chunk it completed, so fewer than 5000 rows are
      lost. */
  lemma StreamChunksMeaning(stream: (seq<Value>, Outcome))
    ensures var chunks := StreamChunks(stream);
      && (forall i :: 0 <= i < |chunks| ==> 0 < |chunks[i]| <= ChunkSize)
      && |chunks| <= |Chunks(stream.0, ChunkSize)| && chunks == Chunks(stream.0, ChunkSize)[..|chunks|]
      && |Flatten(chunks)| <= |stream.0| && Flatten(chunks) == stream.0[..|Flatten(chunks)|]
      && (stream.1.Pass? ==> Flatten(chunks) == stream.0)
      && (stream.1.Fail? ==> |Flatten(chunks)| > |stream.0| - ChunkSize && forall i :: 0 <= i < |chunks| ==> |chunks[i]| == ChunkSize)
  {
    var s := stream.0;
    var chunks := StreamChunks(stream);
    if stream.1.Pass? {
      FlattenChunks(s, ChunkSize);
      assert s[..|s|] == s;
    } else {
      var k := |s| / ChunkSize;
      var t := s[..k * ChunkSize];
      FullChunksArePrefix(s, ChunkSize, k);
      FlattenChunks(t, ChunkSize);
      assert |chunks| == k;
    }
  }

  // ---- saving the chunks ----

  /** For each object of a one-by-one `bulk_create`, whether it has a
      primary key afterwards: exactly when its own save went through. */
  function PkAfterSave(rows: seq<Value>, objs: seq<Value>, save: (seq<Value>, Value) -> Outcome): (r: seq<bool>)
    ensures |r| == |objs|
    decreases |objs|
  {
    if objs == [] then []
    else
      match save(rows, objs[0])
      case Pass => [true] + PkAfterSave(rows + [objs[0]], objs[1..], save)
      case Fail(_) => [false] + PkAfterSave(rows, objs[1..], save)
  }

  /** The objects whose flag is set, in order. */
  function Keep(objs: seq<Value>, flags: seq<bool>): (r: seq<Value>)
    requires |flags| == |objs|
    ensures |r| <= |objs|
    decreases |objs|
  {
    if objs == [] then []
    else (if flags[0] then [objs[0]] else []) + Keep(objs[1..], flags[1..])
  }

  /** When the fallback loop gets through a chunk, the objects that have a
      primary key are exactly the rows it added, in chunk order. */
  lemma {:induction false} SavedAreTheNewRows(rows: seq<Value>, objs: seq<Value>, save: (seq<Value>, Value) -> Outcome)
    ensures Fallback(rows, objs, save).1.Pass? ==>
      Fallback(rows, objs, save).0 == rows + Keep(objs, PkAfterSave(rows, objs, save))
    decreases |objs|
  {
    if objs == [] {
      assert rows + [] == rows;
    } else {
      match save(rows, objs[0])
      case Pass =>
        var rows' := rows + [objs[0]];
        SavedAreTheNewRows(rows', objs[1..], save);
        var k := Keep(objs[1..], PkAfterSave(rows', objs[1..], save));
        assert Keep(objs, PkAfterSave(rows, objs, save)) == [objs[0]] + k;
        assert rows' + k == rows + ([objs[0]] + k);
      case Fail(e) =>
        if IsDuplicateKey(e) {
          SavedAreTheNewRows(rows, objs[1..], save);
          var k := Keep(objs[1..], PkAfterSave(rows, objs[1..], save));
          assert Keep(objs, PkAfterSave(rows, objs, save)) == [] + k;
          assert [] + k == k;
        }
    }
  }

  /** `for t in chunk: if t.pk is not None: t.process()` on the rows that
      were saved: `process` is how `Tweet.process` fares. Returns the rows
      it was called on and the outcome; the first failure propagates. */
  function ProcessRows(rows: seq<Value>, process: Value -> Outcome): (r: (seq<Value>, Outcome))
    ensures |r.0| <= |rows|
    decreases |rows|
  {
    if rows == [] then ([], Pass)
    else
      match process(rows[0])
      case Fail(e) => ([rows[0]], Fail(e))
      case Pass =>
        var rest := ProcessRows(rows[1..], process);
        ([rows[0]] + rest.0, rest.1)
  }

  /** The rows are processed in order up to and including the first whose
      processing fails; when none fails, every row is processed. */
  lemma {:induction false} ProcessRowsMeaning(rows: seq<Value>, process: Value -> Outcome)
    ensures var r := ProcessRows(rows, process);
      && r.0 == rows[..|r.0|]
      && (r.1.Pass? <==> forall i :: 0 <= i < |rows| ==> process(rows[i]).Pass?)
      && (r.1.Pass? ==> r.0 == rows)
      && (r.1.Fail? ==> r.0 != [] && r.1 == process(rows[|r.0| - 1]))
      && (r.1.Fail? ==> forall i :: 0 <= i < |r.0| - 1 ==> process(rows[i]).Pass?)
    decreases |rows|
  {
    if rows == [] {
      assert rows[..0] == [];
    } else if process(rows[0]).Pass? {
      ProcessRowsMeaning(rows[1..], process);
      var r := ProcessRows(rows, process);
      var rest := ProcessRows(rows[1..], process);
      assert r.0 == [rows[0]] + rest.0;
      assert r.0 == rows[..|r.0|];
      assert forall i :: 1 <= i < |rows| ==> rows[i] == rows[1..][i - 1];
    } else {
      assert ProcessRows(rows, process).0 == rows[..1];
    }
  }

  /** The table, the rows processed and the outcome after some chunks. */
  datatype Saved = Saved(rows: seq<Value>, processed: seq<Value>, outcome: Outcome)

  /** Lines 49-55 of `_crawl_tweets`: each chunk goes through the one-by-one
      `bulk_create`, then the objects of it that got a primary key are
      processed; any error ends the loop. */
  function SaveChunks(rows: seq<Value>, chunks: seq<seq<Value>>, save: (seq<Value>, Value) -> Outcome,
                      process: Value -> Outcome): Saved
    decreases |chunks|
  {
    if chunks == [] then Saved(rows, [], Pass)
    else
      var (after, o) := Fallback(rows, chunks[0], save);
      if o.Fail? then Saved(after, [], o)
      else
        var (done, p) := ProcessRows(Keep(chunks[0], PkAfterSave(rows, chunks[0], save)), process);
        if p.Fail? then Saved(after, done, p)
        else
          var rest := SaveChunks(after, chunks[1..], save, process);
          Saved(rest.rows, done + rest.processed, rest.outcome)
  }

  predicate IsPrefix<T(==)>(a: seq<T>, b: seq<T>) {
    |a| <= |b| && a == b[..|a|]
  }

  lemma {:induction false} SubsequenceConcat<T>(a: seq<T>, b: seq<T>, c: seq<T>, d: seq<T>)
    requires IsSubsequence(a, b) && IsSubsequence(c, d)
    ensures IsSubsequence(a + c, b + d)
    decreases |b|
  {
    if b == [] {
      assert a + c == c;
      assert b + d == d;
    } else {
      assert (b + d)[0] == b[0];
      assert (b + d)[1..] == b[1..] + d;
      if a != [] && a[0] == b[0] && IsSubsequence(a[1..], b[1..]) {
        SubsequenceConcat(a[1..], b[1..], c, d);
        assert (a + c)[0] == a[0];
        assert (a + c)[1..] == a[1..] + c;
      } else {
        SubsequenceConcat(a, b[1..], c, d);
      }
    }
  }

  /** What the chunk loop keeps to: the table keeps every row it had and
      gains objects of the chunks in order; only added rows are processed,
      in the order they were added, and all of them when it gets through. */
  predicate SavedWell(rows: seq<Value>, chunks: seq<seq<Value>>, r: Saved) {
    && |rows| <= |r.rows| && r.rows[..|rows|] == rows
    && IsSubsequence(r.rows[|rows|..], Flatten(chunks))
    && IsPrefix(r.processed, r.rows[|rows|..])
    && (r.outcome.Pass? ==> r.processed == r.rows[|rows|..])
  }

  /** A chunk whose save or processing fails ends the loop. */
  lemma SaveChunksStops(rows: seq<Value>, chunks: seq<seq<Value>>, save: (seq<Value>, Value) -> Outcome,
                        process: Value -> Outcome)
    requires chunks != []
    requires Fallback(rows, chunks[0], save).1.Fail? ||
      ProcessRows(Keep(chunks[0], PkAfterSave(rows, chunks[0], save)), process).1.Fail?
    ensures SavedWell(rows, chunks, SaveChunks(rows, chunks, save, process))
  {
    var r := SaveChunks(rows, chunks, save, process);
    var after := Fallback(rows, chunks[0], save).0;
    FallbackAppendsInOrder(rows, chunks[0], save);
    var added := after[|rows|..];
    assert Flatten(chunks) == chunks[0] + Flatten(chunks[1..]);
    EmptyIsSubsequence(Flatten(chunks[1..]));
    SubsequenceConcat(added, chunks[0], [], Flatten(chunks[1..]));
    assert added + [] == added;
    assert r.rows == after;
    if Fallback(rows, chunks[0], save).1.Pass? {
      SavedAreTheNewRows(rows, chunks[0], save);
      var newRows := Keep(chunks[0], PkAfterSave(rows, chunks[0], save));
      assert added == newRows;
      ProcessRowsMeaning(newRows, process);
      assert r.processed == ProcessRows(newRows, process).0;
    }
  }

  /** A chunk that is saved and processed leads on to the next. */
  lemma SaveChunksGoesOn(rows: seq<Value>, chunks: seq<seq<Value>>, save: (seq<Value>, Value) -> Outcome,
                         process: Value -> Outcome)
    requires chunks != []
    requires Fallback(rows, chunks[0], save).1.Pass?
    requires ProcessRows(Keep(chunks[0], PkAfterSave(rows, chunks[0], save)), process).1.Pass?
    requires var after := Fallback(rows, chunks[0], save).0;
      SavedWell(after, chunks[1..], SaveChunks(after, chunks[1..], save, process))
    ensures SavedWell(rows, chunks, SaveChunks(rows, chunks, save, process))
  {
    var r := SaveChunks(rows, chunks, save, process);
    var after := Fallback(rows, chunks[0], save).0;
    SavedAreTheNewRows(rows, chunks[0], save);
    FallbackAppendsInOrder(rows, chunks[0], save);
    var newRows := Keep(chunks[0], PkAfterSave(rows, chunks[0], save));
    assert after == rows + newRows;
    assert after[|rows|..] == newRows;
    ProcessRowsMeaning(newRows, process);
    var rest := SaveChunks(after, chunks[1..], save, process);
    assert r == Saved(rest.rows, newRows + rest.processed, rest.outcome);
    var later := rest.rows[|after|..];
    assert r.rows[..|rows|] == after[..|rows|];
    assert r.rows[|rows|..] == newRows + later;
    assert Flatten(chunks) == chunks[0] + Flatten(chunks[1..]);
    SubsequenceConcat(newRows, chunks[0], later, Flatten(chunks[1..]));
    assert (newRows + later)[..|newRows + rest.processed|] == newRows + later[..|rest.processed|];
  }

  /** The chunk loop keeps to `SavedWell`, whatever the saves and the
      processing do. */
  lemma {:induction false} SaveChunksMeaning(rows: seq<Value>, chunks: seq<seq<Value>>,
                                             save: (seq<Value>, Value) -> Outcome, process: Value -> Outcome)
    ensures SavedWell(rows, chunks, SaveChunks(rows, chunks, save, process))
    decreases |chunks|
  {
    if chunks == [] {
      assert rows[..|rows|] == rows;
      assert SaveChunks(rows, chunks, save, process).rows[|rows|..] == [];
    } else if Fallback(rows, chunks[0], save).1.Fail? ||
              ProcessRows(Keep(chunks[0], PkAfterSave(rows, chunks[0], save)), process).1.Fail? {
      SaveChunksStops(rows, chunks, save, process);
    } else {
      var after := Fallback(rows, chunks[0], save).0;
      SaveChunksMeaning(after, chunks[1..], save, process);
      SaveChunksGoesOn(rows, chunks, save, process);
    }
  }

  // ---- one crawl ----

  /** The window every crawl of one `crawl_tweets` call shares. */
  datatype Window = Window(limit: Option<int>, since: Option<DateTime>, until: Option<DateTime>, onlyCached: bool)

  /** The services a crawl talks to: `slugify`, what `twint.run.Search`
      finds for a config, the two time conversions, `obj.save()` against the
      tweet table as it stands, and `Tweet.process`. */
  datatype Services = Services(
    slugify: string -> string,
    search: TwintConfig -> seq<Tweet>,
    fromMillis: int -> Value,
    parseStamp: Value -> Result<Value>,
    save: (seq<Value>, Value) -> Outcome,
    process: Value -> Outcome)

  /** `'en' if mentions else None` */
  function Language(mentions: Value): Option<string> {
    if Truthy(mentions) then Some("en") else None
  }

  /** The search `_crawl_tweets` asks `get_tweets_for_username` for. */
  function CrawlSetup(handle: string, w: Window, mentions: Value): SearchSetup {
    ConfigureSearch(handle, w.limit, w.since, w.until, Truthy(mentions), Language(mentions))
  }

  /** A mentions crawl searches for `'@' + handle` in English; an ordinary
      crawl reads the handle's timeline in any language. */
  lemma CrawlSetupMeaning(handle: string, w: Window, mentions: Value)
    ensures var setup := CrawlSetup(handle, w, mentions);
      && (setup.config.lang == Some("en") <==> Truthy(mentions))
      && (!Truthy(mentions) ==> setup.config.lang == None)
      && (Truthy(mentions) ==> setup.config.search == Some("@" + handle) && setup.parts[0] == "@" + handle)
      && (!Truthy(mentions) ==> setup.config.username == Some(handle) && setup.parts[0] == handle)
  {
    SignatureTokens(handle, w.limit, w.since, w.until, Truthy(mentions), Language(mentions));
  }

  /** What a crawl leaves behind: the crawl buffer files, the tweet table,
      the rows processed and the outcome. */
  datatype CrawlResult = CrawlResult(files: map<string, seq<Value>>, rows: seq<Value>, processed: seq<Value>, outcome: Outcome)

  /** `_crawl_tweets` without a handle: `'@' + None`, or joining a None
      signature part, fails before anything is opened. */
  const NoHandleError := Error("TypeError", "can only concatenate str (not \"NoneType\") to str")

  /** Lines 40-47 of `_crawl_tweets`: the buffer's records replayed as
      tweets, and those transformed into rows up to the first error. */
  function Transformed(self: TwitterEntity, records: seq<Value>, mentions: Value, sv: Services): (seq<Value>, Outcome) {
    var (tweets, tail) := Replay(records);
    ProcessStream(tweets, tail, Transform(self, mentions, sv.fromMillis, sv.parseStamp))
  }

  /** `_crawl_tweets(limit, since, until, mentions, only_cached)`: crawl
      into the buffer and replay it, transform the tweets lazily, save them
      chunk by chunk and process the new rows; a stream error surfaces once
      the full chunks before it are saved. */
  function CrawlOnce(files: map<string, seq<Value>>, rows: seq<Value>, self: TwitterEntity, w: Window,
                     mentions: Value, sv: Services): CrawlResult
  {
    if self.twitterHandle.None? then CrawlResult(files, rows, [], Fail(NoHandleError))
    else
      var setup := CrawlSetup(self.twitterHandle.value, w, mentions);
      var name := GetCrawlFname(ResultsTemplate, setup.parts, sv.slugify);
      var files' := AppendRun(files, name, if w.onlyCached then [] else PackAll(sv.search(CrawlConfig(setup, sv.slugify))));
      FinishCrawl(files', rows, Transformed(self, files'[name], mentions, sv), sv)
  }

  /** Lines 49-55 of `_crawl_tweets` on the transformed stream: the chunks
      it completes are saved and processed, and the stream's own error, if
      any, surfaces last. */
  function FinishCrawl(files: map<string, seq<Value>>, rows: seq<Value>, stream: (seq<Value>, Outcome), sv: Services): CrawlResult {
    var saved := SaveChunks(rows, StreamChunks(stream), sv.save, sv.process);
    CrawlResult(files, saved.rows, saved.processed, if saved.outcome.Fail? then saved.outcome else stream.1)
  }

  /** Every buffer file keeps what it held: files are only ever added or
      appended to. */
  predicate AppendOnly(files: map<string, seq<Value>>, files': map<string, seq<Value>>) {
    files.Keys <= files'.Keys && forall k :: k in files ==> IsPrefix(files[k], files'[k])
  }

  lemma AppendRunAppendOnly(files: map<string, seq<Value>>, name: string, run: seq<Value>)
    ensures AppendOnly(files, AppendRun(files, name, run))
  {
    var files' := AppendRun(files, name, run);
    forall k | k in files ensures IsPrefix(files[k], files'[k]) {
      if k == name {
        assert files'[k] == files[k] + run;
        assert files'[k][..|files[k]|] == files[k];
      } else {
        assert files[k][..|files[k]|] == files[k];
      }
    }
  }

  /** What a crawl keeps to: the buffer files are append-only, the tweet
      table keeps every row it had, and only added rows are processed, in
      order, all of them when the crawl succeeds. */
  predicate CrawledWell(files: map<string, seq<Value>>, rows: seq<Value>, r: CrawlResult) {
    && AppendOnly(files, r.files)
    && |rows| <= |r.rows| && r.rows[..|rows|] == rows
    && IsPrefix(r.processed, r.rows[|rows|..])
    && (r.outcome.Pass? ==> r.processed == r.rows[|rows|..])
  }

  /** One crawl keeps to `CrawledWell`. */
  lemma CrawlOnceMeaning(files: map<string, seq<Value>>, rows: seq<Value>, self: TwitterEntity, w: Window,
                         mentions: Value, sv: Services)
    ensures CrawledWell(files, rows, CrawlOnce(files, rows, self, w, mentions, sv))
  {
    var r := CrawlOnce(files, rows, self, w, mentions, sv);
    if self.twitterHandle.None? {
      assert rows[..|rows|] == rows;
      assert r.rows[|rows|..] == [];
      AppendRunAppendOnly(files, "", []);
      assert forall k :: k in files ==> files[k][..|files[k]|] == files[k];
    } else {
      var setup := CrawlSetup(self.twitterHandle.value, w, mentions);
      var name := GetCrawlFname(ResultsTemplate, setup.parts, sv.slugify);
      var run := if w.onlyCached then [] else PackAll(sv.search(CrawlConfig(setup, sv.slugify)));
      AppendRunAppendOnly(files, name, run);
      var stream := Transformed(self, r.files[name], mentions, sv);
      SaveChunksMeaning(rows, StreamChunks(stream), sv.save, sv.process);
    }
  }

  /** The rows a crawl adds are transformed tweets of the buffer, in stream
      order, out of the part of the stream that reached the table. */
  lemma CrawlOnceAddsStreamRows(files: map<string, seq<Value>>, rows: seq<Value>, self: TwitterEntity, w: Window,
                                mentions: Value, sv: Services)
    requires self.twitterHandle.Some?
    ensures var r := CrawlOnce(files, rows, self, w, mentions, sv);
      var setup := CrawlSetup(self.twitterHandle.value, w, mentions);
      var stream := Transformed(self, r.files[GetCrawlFname(ResultsTemplate, setup.parts, sv.slugify)], mentions, sv);
      && |rows| <= |r.rows|
      && IsSubsequence(r.rows[|rows|..], Flatten(StreamChunks(stream)))
      && IsPrefix(Flatten(StreamChunks(stream)), stream.0)
  {
    var r := CrawlOnce(files, rows, self, w, mentions, sv);
    var setup := CrawlSetup(self.twitterHandle.value, w, mentions);
    var stream := Transformed(self, r.files[GetCrawlFname(ResultsTemplate, setup.parts, sv.slugify)], mentions, sv);
    SaveChunksMeaning(rows, StreamChunks(stream), sv.save, sv.process);
    StreamChunksMeaning(stream);
  }

  // ---- crawl_tweets ----

  /** The rows and processed rows of the crawls so far, chained. */
  function CrawlAll(files: map<string, seq<Value>>, rows: seq<Value>, self: TwitterEntity, w: Window,
                    modes: seq<Value>, sv: Services): CrawlResult
    decreases |modes|
  {
    if modes == [] then CrawlResult(files, rows, [], Pass)
    else
      var first := CrawlOnce(files, rows, self, w, modes[0], sv);
      if first.outcome.Fail? then first
      else After(first.processed, CrawlAll(first.files, first.rows, self, w, modes[1..], sv))
  }

  /** One turn of the loop over the modes. */
  lemma CrawlAllStep(files: map<string, seq<Value>>, rows: seq<Value>, self: TwitterEntity, w: Window,
                     modes: seq<Value>, sv: Services, first: CrawlResult)
    requires modes != [] && first == CrawlOnce(files, rows, self, w, modes[0], sv)
    ensures first.outcome.Fail? ==> CrawlAll(files, rows, self, w, modes, sv) == first
    ensures first.outcome.Pass? ==>
      CrawlAll(files, rows, self, w, modes, sv) == After(first.processed, CrawlAll(first.files, first.rows, self, w, modes[1..], sv))
  {
  }

  /** Later crawls after rows already processed. */
  function After(processed: seq<Value>, rest: CrawlResult): CrawlResult {
    CrawlResult(rest.files, rest.rows, processed + rest.processed, rest.outcome)
  }

  /** The `mentions` argument of `crawl_tweets`, as what iterating it
      gives: None, the items of an iterable, or a value that is not
      iterable. */
  datatype Modes = ModesNone | ModesItems(items: seq<Value>) | ModesNotIterable

  /** `crawl_tweets(limit, since, until, mentions, only_cached)` */
  function CrawlTweetsSpec(files: map<string, seq<Value>>, rows: seq<Value>, self: TwitterEntity, w: Window,
                           modes: Modes, sv: Services): CrawlResult
  {
    if self.twitterHandle.None? then CrawlResult(files, rows, [], Pass)
    else
      match modes
      case ModesNone => CrawlAll(files, rows, self, w, [VBool(false), VBool(true)], sv)
      case ModesItems(items) => CrawlAll(files, rows, self, w, items, sv)
      case ModesNotIterable => CrawlResult(files, rows, [], Fail(NewsModels.NotIterableError))
  }

  /** Without a handle nothing is crawled, saved or processed; with the
      default modes the entity's own tweets are crawled first and, when that
      succeeds, the tweets mentioning it. */
  lemma CrawlTweetsModes(files: map<string, seq<Value>>, rows: seq<Value>, self: TwitterEntity, w: Window,
                         modes: Modes, sv: Services)
    ensures self.twitterHandle.None? ==> CrawlTweetsSpec(files, rows, self, w, modes, sv) == CrawlResult(files, rows, [], Pass)
    ensures self.twitterHandle.Some? && modes.ModesNone? ==>
      var own := CrawlOnce(files, rows, self, w, VBool(false), sv);
      var r := CrawlTweetsSpec(files, rows, self, w, modes, sv);
      && (own.outcome.Fail? ==> r == own)
      && (own.outcome.Pass? ==>
            var ment := CrawlOnce(own.files, own.rows, self, w, VBool(true), sv);
            r == After(own.processed, ment))
  {
    if self.twitterHandle.Some? && modes.ModesNone? {
      var own := CrawlOnce(files, rows, self, w, VBool(false), sv);
      if own.outcome.Pass? {
        var ment := CrawlOnce(own.files, own.rows, self, w, VBool(true), sv);
        var ms := [VBool(false), VBool(true)];
        assert ms[1..] == [VBool(true)];
        assert [VBool(true)][1..] == [];
        if ment.outcome.Pass? {
          assert ment.processed + [] == ment.processed;
        }
      }
    }
  }

  /** A successful crawl followed by further crawls keeps to the same. */
  lemma CrawledWellChain(files: map<string, seq<Value>>, rows: seq<Value>, first: CrawlResult, rest: CrawlResult)
    requires CrawledWell(files, rows, first) && first.outcome.Pass?
    requires CrawledWell(first.files, first.rows, rest)
    ensures CrawledWell(files, rows, After(first.processed, rest))
  {
    forall k | k in files ensures IsPrefix(files[k], rest.files[k]) {
      PrefixTransitive(files[k], first.files[k], rest.files[k]);
    }
    assert rest.rows[..|rows|] == rest.rows[..|first.rows|][..|rows|];
    var a := first.rows[|rows|..];
    var b := rest.rows[|first.rows|..];
    assert first.processed == a;
    assert rest.rows[|rows|..] == a + b;
    assert (a + b)[..|a + rest.processed|] == a + b[..|rest.processed|];
  }

  /** Over any number of crawls the buffer files are append-only and the
      tweet table keeps every row it had; only added rows are processed, in
      order, and all of them when every crawl succeeds. */
  lemma {:induction false} CrawlAllMeaning(files: map<string, seq<Value>>, rows: seq<Value>, self: TwitterEntity,
                                           w: Window, modes: seq<Value>, sv: Services)
    ensures CrawledWell(files, rows, CrawlAll(files, rows, self, w, modes, sv))
    decreases |modes|
  {
    if modes == [] {
      assert rows[..|rows|] == rows;
      assert CrawlAll(files, rows, self, w, modes, sv).rows[|rows|..] == [];
      assert forall k :: k in files ==> files[k][..|files[k]|] == files[k];
    } else {
      var first := CrawlOnce(files, rows, self, w, modes[0], sv);
      CrawlOnceMeaning(files, rows, self, w, modes[0], sv);
      if first.outcome.Pass? {
        CrawlAllMeaning(first.files, first.rows, self, w, modes[1..], sv);
        CrawledWellChain(files, rows, first, CrawlAll(first.files, first.rows, self, w, modes[1..], sv));
      }
    }
  }

  lemma PrefixTransitive<T>(a: seq<T>, b: seq<T>, c: seq<T>)
    requires IsPrefix(a, b) && IsPrefix(b, c)
    ensures IsPrefix(a, c)
  {
    assert c[..|a|] == c[..|b|][..|a|];
  }

  // ---- the methods ----

  /** Never used: `_crawl_tweets` always takes the one-by-one path. */
  const NoBulkInsert: (seq<Value>, seq<Value>) -> (seq<Value>, Outcome) :=
    (rows: seq<Value>, objs: seq<Value>) => (rows, Fail(Error("NotImplementedError", "bulk path")))

  /** The inner loop of `_crawl_tweets`: process the objects of a chunk
      that have a primary key, in chunk order, until one fails. */
  method ProcessSaved(chunk: seq<Value>, pk: seq<bool>, process: Value -> Outcome)
    returns (done: seq<Value>, r: Outcome)
    requires |pk| == |chunk|
    ensures (done, r) == ProcessRows(Keep(chunk, pk), process)
  {
    done := [];
    var j := 0;
    assert chunk[0..] == chunk && pk[0..] == pk;
    assert [] + ProcessRows(Keep(chunk, pk), process).0 == ProcessRows(Keep(chunk, pk), process).0;
    while j < |chunk|
      invariant 0 <= j <= |chunk|
      invariant ProcessRows(Keep(chunk, pk), process) ==
        (var rest := ProcessRows(Keep(chunk[j..], pk[j..]), process); (done + rest.0, rest.1))
    {
      assert chunk[j..][1..] == chunk[j + 1..];
      assert pk[j..][1..] == pk[j + 1..];
      if pk[j] {
        var later := Keep(chunk[j + 1..], pk[j + 1..]);
        var rest := ProcessRows(later, process);
        assert Keep(chunk[j..], pk[j..]) == [chunk[j]] + later;
        assert ([chunk[j]] + later)[1..] == later;
        var o := process(chunk[j]);
        if o.Fail? {
          return done + [chunk[j]], o;
        }
        assert done + ([chunk[j]] + rest.0) == (done + [chunk[j]]) + rest.0;
        done := done + [chunk[j]];
      } else {
        assert Keep(chunk[j..], pk[j..]) == [] + Keep(chunk[j + 1..], pk[j + 1..]);
        assert [] + Keep(chunk[j + 1..], pk[j + 1..]) == Keep(chunk[j + 1..], pk[j + 1..]);
      }
      j := j + 1;
    }
    assert done + [] == done;
    r := Pass;
  }

  /** One turn of the chunk loop: `Tweet.objects.bulk_create(chunk, False)`,
      then `tweet.process()` for every tweet of the chunk that was saved, and
      what the chunks from `chunks[0]` on come to after it. */
  method SaveStep(table: Table, chunks: seq<seq<Value>>, save: (seq<Value>, Value) -> Outcome,
                  process: Value -> Outcome)
    returns (done: seq<Value>, o: Outcome)
    requires chunks != []
    modifies table
    ensures o.Fail? ==> SaveChunks(old(table.rows), chunks, save, process) == Saved(table.rows, done, o)
    ensures o.Pass? ==>
      (SaveChunks(old(table.rows), chunks, save, process) ==
       (var rest := SaveChunks(table.rows, chunks[1..], save, process);
        Saved(rest.rows, done + rest.processed, rest.outcome)))
  {
    var chunk := chunks[0];
    var before := table.rows;
    o := table.BulkCreate(chunk, false, save, NoBulkInsert);
    if o.Fail? {
      return [], o;
    }
    var pk := PkAfterSave(before, chunk, save);
    done, o := ProcessSaved(chunk, pk, process);
  }

  /** The chunk loop of `_crawl_tweets`. */
  method SaveAll(table: Table, chunks: seq<seq<Value>>, save: (seq<Value>, Value) -> Outcome,
                 process: Value -> Outcome)
    returns (processed: seq<Value>, r: Outcome)
    modifies table
    ensures Saved(table.rows, processed, r) == SaveChunks(old(table.rows), chunks, save, process)
  {
    processed := [];
    var i := 0;
    while i < |chunks|
      invariant 0 <= i <= |chunks|
      invariant SaveChunks(old(table.rows), chunks, save, process) ==
        (var rest := SaveChunks(table.rows, chunks[i..], save, process);
         Saved(rest.rows, processed + rest.processed, rest.outcome))
    {
      assert chunks[i..][1..] == chunks[i + 1..];
      var done, o := SaveStep(table, chunks[i..], save, process);
      if o.Fail? {
        return processed + done, o;
      }
      var rest := SaveChunks(table.rows, chunks[i + 1..], save, process);
      assert processed + (done + rest.processed) == (processed + done) + rest.processed;
      processed := processed + done;
      i := i + 1;
    }
    assert processed + [] == processed;
    r := Pass;
  }

  /** Lines 40-47 of `_crawl_tweets`: the crawl into the buffer, and the
      generator of transformed tweets over its replay. */
  method FetchStream(self: TwitterEntity, handle: string, store: RecordStore, w: Window, mentions: Value, sv: Services)
    returns (stream: (seq<Value>, Outcome))
    modifies store
    ensures var setup := CrawlSetup(handle, w, mentions);
      var name := GetCrawlFname(ResultsTemplate, setup.parts, sv.slugify);
      && store.files == AppendRun(old(store.files), name,
                                  if w.onlyCached then [] else PackAll(sv.search(CrawlConfig(setup, sv.slugify))))
      && stream == Transformed(self, store.files[name], mentions, sv)
  {
    var config, tweets, tail := GetTweetsForUsername(store, handle, w.limit, w.since, w.until, Truthy(mentions),
                                                     Language(mentions), w.onlyCached, sv.slugify, sv.search);
    stream := ProcessStream(tweets, tail, Transform(self, mentions, sv.fromMillis, sv.parseStamp));
  }

  /** Lines 49-55 of `_crawl_tweets`: `chunkify(tweets, 5000)` hands out
      the chunks the stream completes; each is saved and its new rows
      processed; the stream's own error surfaces last. */
  method SaveStream(table: Table, stream: (seq<Value>, Outcome), sv: Services)
    returns (processed: seq<Value>, r: Outcome)
    modifies table
    ensures var c := FinishCrawl(map[], old(table.rows), stream, sv);
      table.rows == c.rows && processed == c.processed && r == c.outcome
  {
    var usable := if stream.1.Pass? then stream.0 else stream.0[..|stream.0| / ChunkSize * ChunkSize];
    var chunked := Chunkify(usable, ChunkSize);
    var saveOutcome;
    processed, saveOutcome := SaveAll(table, chunked.value, sv.save, sv.process);
    r := if saveOutcome.Fail? then saveOutcome else stream.1;
  }

  /** `_crawl_tweets(limit, since, until, mentions, only_cached)` */
  method CrawlTweetsOnce(self: TwitterEntity, store: RecordStore, table: Table, w: Window, mentions: Value,
                         sv: Services)
    returns (processed: seq<Value>, r: Outcome)
    modifies store, table
    ensures CrawlResult(store.files, table.rows, processed, r) ==
      CrawlOnce(old(store.files), old(table.rows), self, w, mentions, sv)
  {
    if self.twitterHandle.None? {
      return [], Fail(NoHandleError);
    }
    var stream := FetchStream(self, self.twitterHandle.value, store, w, mentions, sv);
    processed, r := SaveStream(table, stream, sv);
  }

  /** One turn of the loop over the modes: the crawl of `ms[0]`, and what
      the crawls of all of `ms` come to after it. */
  method CrawlStep(self: TwitterEntity, store: RecordStore, table: Table, w: Window, ms: seq<Value>, sv: Services)
    returns (done: seq<Value>, o: Outcome)
    requires ms != []
    modifies store, table
    ensures o.Fail? ==> CrawlAll(old(store.files), old(table.rows), self, w, ms, sv) == CrawlResult(store.files, table.rows, done, o)
    ensures o.Pass? ==>
      (CrawlAll(old(store.files), old(table.rows), self, w, ms, sv) ==
       After(done, CrawlAll(store.files, table.rows, self, w, ms[1..], sv)))
  {
    ghost var files0, rows0 := store.files, table.rows;
    done, o := CrawlTweetsOnce(self, store, table, w, ms[0], sv);
    CrawlAllStep(files0, rows0, self, w, ms, sv, CrawlResult(store.files, table.rows, done, o));
  }

  /** `for mention in mentions: self._crawl_tweets(...)`: one
      `_crawl_tweets` pass per mode; the first error ends the loop. */
  method CrawlModes(self: TwitterEntity, store: RecordStore, table: Table, w: Window, ms: seq<Value>, sv: Services)
    returns (processed: seq<Value>, r: Outcome)
    modifies store, table
    ensures CrawlResult(store.files, table.rows, processed, r) == CrawlAll(old(store.files), old(table.rows), self, w, ms, sv)
  {
    ghost var spec := CrawlAll(store.files, table.rows, self, w, ms, sv);
    assert ms[0..] == ms;
    assert [] + spec.processed == spec.processed;
    processed := [];
    var i := 0;
    while i < |ms|
      invariant 0 <= i <= |ms|
      invariant spec == After(processed, CrawlAll(store.files, table.rows, self, w, ms[i..], sv))
    {
      assert ms[i..][1..] == ms[i + 1..];
      var done, o := CrawlStep(self, store, table, w, ms[i..], sv);
      if o.Fail? {
        return processed + done, o;
      }
      ghost var rest := CrawlAll(store.files, table.rows, self, w, ms[i + 1..], sv);
      assert processed + (done + rest.processed) == (processed + done) + rest.processed;
      processed := processed + done;
      i := i + 1;
    }
    assert processed + [] == processed;
    r := Pass;
  }

  /** `crawl_tweets(limit, since, until, mentions, only_cached)` */
  method CrawlTweets(self: TwitterEntity, store: RecordStore, table: Table, w: Window, modes: Modes, sv: Services)
    returns (processed: seq<Value>, r: Outcome)
    modifies store, table
    ensures CrawlResult(store.files, table.rows, processed, r) ==
      CrawlTweetsSpec(old(store.files), old(table.rows), self, w, modes, sv)
  {
    if self.twitterHandle.None? {
      return [], Pass;
    }
    match modes {
      case ModesNone => processed, r := CrawlModes(self, store, table, w, [VBool(false), VBool(true)], sv);
      case ModesItems(items) => processed, r := CrawlModes(self, store, table, w, items, sv);
      case ModesNotIterable => return [], Fail(NewsModels.NotIterableError);
    }
  }
}
