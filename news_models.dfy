/** mnemonic/news/models.py: the configuration and the two-flag state
    machine of `TwitterJob`, the index documents it derives from tweets,
    `Article.process`, which saves only what it changed, and the control
    flow of `Feed.crawl_feed`. The ORM, the crawl, the body extraction and
    the index push are parameters: each is given as the outcome it has. */
module NewsModels {
  import opened Wrappers
  import opened Text
  import opened DateFormat
  import opened PyValues
  import QuerysetUtils

  /** An entity as these models read it: its class name (`__class__.__name__`),
      its `name` and its `twitter_handle`. */
  datatype Entity = Entity(className: string, name: Value, twitterHandle: Value)

  const NoEntityError := Error("AttributeError", "'NoneType' object has no attribute 'twitter_handle'")

  // ---- TwitterJob.cleaned_config ----

  const DefaultKeys: set<string> := {"username", "limit", "since", "until", "mentions", "language", "only_cached"}

  /** The `defaults` dict of `cleaned_config`. */
  function ConfigDefaults(handle: Value, config: map<string, Value>): (r: map<string, Value>)
    ensures r.Keys == DefaultKeys
  {
    map["username" := handle, "limit" := VNone, "since" := VNone, "until" := VNone, "mentions" := VNone,
        "language" := (if Truthy(GetOrNone(config, "mentions")) then VStr("en") else VNone),
        "only_cached" := VBool(false)]
  }

  /** `cleaned_config`: the defaults updated with the stored config. The
      username default reads `self.entity.twitter_handle`, which raises when
      the job has no entity. */
  function CleanedConfig(entity: Option<Entity>, config: map<string, Value>): (r: Result<map<string, Value>>)
    ensures r.Failure? <==> entity.None?
    ensures r.Failure? ==> r.error == NoEntityError
    ensures r.Success? ==> r.value.Keys == DefaultKeys + config.Keys
    ensures r.Success? ==> forall k :: k in config ==> r.value[k] == config[k]
  {
    match entity
    case None => Failure(NoEntityError)
    case Some(e) => Success(ConfigDefaults(e.twitterHandle, config) + config)
  }

  /** A key the stored config leaves out takes its default: the entity's
      handle, None, False, and a language of 'en' exactly when the stored
      `mentions` is truthy. */
  lemma CleanedConfigDefaults(e: Entity, config: map<string, Value>)
    ensures var r := CleanedConfig(Some(e), config).value;
      && ("username" !in config ==> r["username"] == e.twitterHandle)
      && (forall k :: k in {"limit", "since", "until", "mentions"} && k !in config ==> r[k] == VNone)
      && ("only_cached" !in config ==> r["only_cached"] == VBool(false))
      && ("language" !in config ==> (r["language"] == VStr("en") <==> Truthy(GetOrNone(config, "mentions"))))
      && ("language" !in config && !Truthy(GetOrNone(config, "mentions")) ==> r["language"] == VNone)
  {
  }

  // ---- TwitterJob.create: since and until ----

  const NoStrftimeError := Error("AttributeError", "object has no attribute 'strftime'")

  /** `if config.get(key): config[key] = config[key].strftime('%Y-%m-%d')` */
  function NormalizeBound(config: map<string, Value>, key: string): (r: Result<map<string, Value>>)
    ensures !Truthy(GetOrNone(config, key)) ==> r == Success(config)
    ensures Truthy(GetOrNone(config, key)) && config[key].VDateTime? ==>
      r == Success(config[key := VStr(DayStamp(config[key].dt))])
    ensures Truthy(GetOrNone(config, key)) && !config[key].VDateTime? ==> r == Failure(NoStrftimeError)
  {
    if Truthy(GetOrNone(config, key)) then
      match config[key]
      case VDateTime(dt) => Success(config[key := VStr(DayStamp(dt))])
      case _ => Failure(NoStrftimeError)
    else Success(config)
  }

  /** Lines 228-231 of `create`: `since`, then `until`. */
  function NormalizeConfig(config: map<string, Value>): Result<map<string, Value>> {
    match NormalizeBound(config, "since")
    case Failure(e) => Failure(e)
    case Success(c) => NormalizeBound(c, "until")
  }

  /** The normalised config has the same keys; a truthy bound must be a
      datetime and becomes its `%Y-%m-%d` string, a falsy one and every other
      key stay as they were. */
  lemma NormalizeConfigMeaning(config: map<string, Value>)
    ensures var r := NormalizeConfig(config);
      && (r.Success? <==> forall k :: k in {"since", "until"} && Truthy(GetOrNone(config, k)) ==> config[k].VDateTime?)
      && (r.Success? ==> r.value.Keys == config.Keys)
      && (r.Success? ==> forall k :: k in config && (k !in {"since", "until"} || !Truthy(config[k])) ==> r.value[k] == config[k])
      && (r.Success? ==> forall k :: k in {"since", "until"} && Truthy(GetOrNone(config, k)) ==>
            r.value[k] == VStr(DayStamp(config[k].dt)))
  {
    var r := NormalizeConfig(config);
    var s := NormalizeBound(config, "since");
    if s.Success? {
      assert GetOrNone(s.value, "until") == GetOrNone(config, "until");
    }
  }

  /** The `%Y-%m-%d` string `create` stores is the date part of the
      `%Y-%m-%d %H:%M:%S` stamp a crawl signature carries. */
  lemma DayStampStartsSecondsStamp(dt: DateTime)
    ensures |DayStamp(dt)| == 10
    ensures SecondsStamp(dt)[..10] == DayStamp(dt)
  {
    assert SecondsStamp(dt) == DayStamp(dt) + " " + Digits(dt.hour, 2) + ":" + Digits(dt.minute, 2) + ":" + Digits(dt.second, 2);
  }

  // ---- TwitterJob.create: the two flags ----

  /** A job's flags, how often the crawl and the index push were started,
      and the `update_fields` of every save. */
  datatype JobState = JobState(isCrawled: bool, isPushedToIndex: bool, crawls: nat, pushes: nat, saves: seq<seq<string>>)

  /** Lines 245-259 of `create`: crawl unless crawled, then push unless
      pushed, each flag set and saved on its own once its step returned.
      `crawl` and `push` are how `start_crawl` and
      `bulk_push_to_index_for_self` fare; a failure propagates. */
  function CreateStep(s: JobState, crawl: Outcome, push: Outcome): (JobState, Outcome) {
    if !s.isCrawled && crawl.Fail? then (s.(crawls := s.crawls + 1), crawl)
    else
      var s1 := if s.isCrawled then s else s.(isCrawled := true, crawls := s.crawls + 1, saves := s.saves + [["is_crawled"]]);
      if s1.isPushedToIndex then (s1, Pass)
      else if push.Fail? then (s1.(pushes := s1.pushes + 1), push)
      else (s1.(isPushedToIndex := true, pushes := s1.pushes + 1, saves := s1.saves + [["is_pushed_to_index"]]), Pass)
  }

  /** A step runs only while its flag is false, flags are never reset, every
      save writes one flag, and a successful call leaves both flags set. */
  lemma CreateStepMeaning(s: JobState, crawl: Outcome, push: Outcome)
    ensures var (t, r) := CreateStep(s, crawl, push);
      && (s.isCrawled ==> t.isCrawled) && (s.isPushedToIndex ==> t.isPushedToIndex)
      && t.crawls == s.crawls + (if s.isCrawled then 0 else 1)
      && t.pushes == s.pushes + (if !s.isPushedToIndex && (s.isCrawled || crawl.Pass?) then 1 else 0)
      && |s.saves| <= |t.saves| && t.saves[..|s.saves|] == s.saves
      && (forall i :: |s.saves| <= i < |t.saves| ==> t.saves[i] == ["is_crawled"] || t.saves[i] == ["is_pushed_to_index"])
      && (r.Pass? ==> t.isCrawled && t.isPushedToIndex)
      && (r.Fail? ==> r == (if !s.isCrawled && crawl.Fail? then crawl else push))
  {
  }

  /** A job whose push only starts after the crawl keeps that order: once a
      push was made the job is crawled. */
  lemma CreateStepPushesAfterCrawl(s: JobState, crawl: Outcome, push: Outcome)
    requires s.pushes > 0 ==> s.isCrawled
    ensures var t := CreateStep(s, crawl, push).0; t.pushes > 0 ==> t.isCrawled
  {
  }

  /** A second `create` after a successful one starts nothing and saves
      nothing, whatever its steps would do. */
  lemma CreateIdempotent(s: JobState, crawl: Outcome, push: Outcome, crawl2: Outcome, push2: Outcome)
    requires CreateStep(s, crawl, push).1.Pass?
    ensures var t := CreateStep(s, crawl, push).0; CreateStep(t, crawl2, push2) == (t, Pass)
  {
  }

  class TwitterJob {
    var isCrawled: bool
    var isPushedToIndex: bool
    var crawls: nat
    var pushes: nat
    var saves: seq<seq<string>>

    constructor (isCrawled: bool, isPushedToIndex: bool)
      ensures State() == JobState(isCrawled, isPushedToIndex, 0, 0, [])
    {
      this.isCrawled := isCrawled;
      this.isPushedToIndex := isPushedToIndex;
      crawls, pushes, saves := 0, 0, [];
    }

    function State(): JobState
      reads this
    {
      JobState(isCrawled, isPushedToIndex, crawls, pushes, saves)
    }

    /** The flag logic of `create`, on the job it found or made. */
    method Create(crawl: Outcome, push: Outcome) returns (r: Outcome)
      modifies this
      ensures (State(), r) == CreateStep(old(State()), crawl, push)
    {
      if !isCrawled {
        crawls := crawls + 1;
        if crawl.Fail? {
          return crawl;
        }
        isCrawled := true;
        saves := saves + [["is_crawled"]];
      }
      if !isPushedToIndex {
        pushes := pushes + 1;
        if push.Fail? {
          return push;
        }
        isPushedToIndex := true;
        saves := saves + [["is_pushed_to_index"]];
      }
      r := Pass;
    }
  }

  // ---- TwitterJob.get_bulk_index_data_for_self ----

  /** The tweet attributes that are not meta data (the same set is used by
      `_process_tweet`). */
  const NonMetadataKeys: set<string> := {"id", "id_str", "tweet", "datetime", "datestamp", "timestamp"}

  /** `{k: v for k, v in vars(tweet).items() if k not in non_metadata_keys}` */
  function Metadata(tweet: map<string, Value>): (r: map<string, Value>)
    ensures r.Keys == tweet.Keys - NonMetadataKeys
    ensures forall k :: k in r ==> r[k] == tweet[k]
  {
    map k | k in tweet && k !in NonMetadataKeys :: tweet[k]
  }

  function MissingAttribute(name: string): Error {
    Error("AttributeError", "'Tweet' object has no attribute '" + name + "'")
  }

  function MissingKey(name: string): Error {
    Error("KeyError", name)
  }

  const NotIterableError := Error("TypeError", "object is not iterable")
  const NotSubscriptableError := Error("TypeError", "indices must be integers")

  /** The publication time of a tweet: an `int` `datetime` (a bool is an
      int) is a millisecond timestamp, anything else goes through
      `strptime(..., '%Y-%m-%d %H:%M:%S %Z')`. Both conversions are
      parameters. */
  function PublishedOn(tweet: map<string, Value>, fromMillis: int -> Value, parseStamp: Value -> Result<Value>): (r: Result<Value>)
    ensures "datetime" !in tweet ==> r == Failure(MissingAttribute("datetime"))
    ensures "datetime" in tweet && tweet["datetime"].VInt? ==> r == Success(fromMillis(tweet["datetime"].i))
    ensures "datetime" in tweet && !tweet["datetime"].VInt? && !tweet["datetime"].VBool? ==> r == parseStamp(tweet["datetime"])
  {
    if "datetime" !in tweet then Failure(MissingAttribute("datetime"))
    else
      match tweet["datetime"]
      case VInt(i) => Success(fromMillis(i))
      case VBool(b) => Success(fromMillis(if b then 1 else 0))
      case v => parseStamp(v)
  }

  /** `[d['name'] for d in items]` */
  function NamesOf(items: seq<Value>): (r: Result<seq<Value>>)
    ensures r.Success? <==> forall i :: 0 <= i < |items| ==> items[i].VMap? && "name" in items[i].entries
    ensures r.Success? ==> |r.value| == |items| && forall i :: 0 <= i < |items| ==> r.value[i] == items[i].entries["name"]
  {
    if items == [] then Success([])
    else
      var head := match items[0]
        case VMap(m) => if "name" in m then Success(m["name"]) else Failure(MissingKey("name"))
        case _ => Failure(NotSubscriptableError);
      match head
      case Failure(e) => Failure(e)
      case Success(n) =>
        match NamesOf(items[1..])
        case Failure(e) => Failure(e)
        case Success(rest) => Success([n] + rest)
  }

  /** The `mentions` of an index document: the names of the `reply_to`
      mappings in order. A str, bytes or dict iterates to elements the
      `['name']` lookup rejects, so only an empty one passes; a scalar is not
      iterable. */
  function ReplyNames(replyTo: Value): (r: Result<seq<Value>>)
    ensures replyTo.VList? ==> r == NamesOf(replyTo.items)
    ensures replyTo.VTuple? ==> r == NamesOf(replyTo.elems)
    ensures replyTo.VStr? || replyTo.VBytes? || replyTo.VMap? ==>
      && (r.Success? <==> !Truthy(replyTo))
      && (r.Success? ==> r.value == [])
      && (r.Failure? ==> r.error.kind == "TypeError")
    ensures replyTo.VNone? || replyTo.VBool? || replyTo.VInt? || replyTo.VDateTime? ==> r == Failure(NotIterableError)
  {
    match replyTo
    case VList(xs) => NamesOf(xs)
    case VTuple(xs) => NamesOf(xs)
    case VStr(s) => if s == "" then Success([]) else Failure(NotSubscriptableError)
    case VBytes(b) => if b == [] then Success([]) else Failure(NotSubscriptableError)
    case VMap(m) => if m == map[] then Success([]) else Failure(NotSubscriptableError)
    case _ => Failure(NotIterableError)
  }

  /** The index document of one tweet (lines 180-200). `mentionsMode` is
      whether `cleaned_config['mentions']` is truthy; in that mode the
      entity is dropped and the source is the tweet's own `name`. */
  function TweetIndexDoc(tweet: map<string, Value>, entity: Option<Entity>, mentionsMode: bool,
                         fromMillis: int -> Value, parseStamp: Value -> Result<Value>): (r: Result<map<string, Value>>)
  {
    match PublishedOn(tweet, fromMillis, parseStamp)
    case Failure(e) => Failure(e)
    case Success(publishedOn) =>
      var metadata := Metadata(tweet);
      var source := if mentionsMode || entity.None? then None else entity;
      var sourceType := if source.Some? then VStr(source.value.className) else VStr("TwitterUser");
      var sourceName := if source.Some? then source.value.name else GetOrNone(metadata, "name");
      match ReplyNames(if "reply_to" in metadata then metadata["reply_to"] else VList([]))
      case Failure(e) => Failure(e)
      case Success(names) =>
        if "tweet" !in tweet then Failure(MissingAttribute("tweet"))
        else if "link" !in metadata then Failure(MissingKey("link"))
        else Success(map["news_type" := VStr("tweet"), "source" := sourceName, "source_type" := sourceType,
                         "mentions" := VList(names), "title" := tweet["tweet"], "published_on" := publishedOn,
                         "url" := metadata["link"]])
  }

  const TweetDocKeys: set<string> := {"news_type", "source", "source_type", "mentions", "title", "published_on", "url"}

  /** A tweet's index document fails exactly when a needed attribute or key
      is missing, the time conversion fails or `reply_to` is not a sequence
      of mappings with a name. */
  lemma TweetIndexDocSucceedsIff(tweet: map<string, Value>, entity: Option<Entity>, mentionsMode: bool,
                                 fromMillis: int -> Value, parseStamp: Value -> Result<Value>)
    ensures var replyTo := if "reply_to" in tweet then tweet["reply_to"] else VList([]);
      TweetIndexDoc(tweet, entity, mentionsMode, fromMillis, parseStamp).Success? <==>
        PublishedOn(tweet, fromMillis, parseStamp).Success? && ReplyNames(replyTo).Success?
        && "tweet" in tweet && "link" in tweet
  {
    var metadata := Metadata(tweet);
    assert ("reply_to" in metadata) == ("reply_to" in tweet);
    assert ("link" in metadata) == ("link" in tweet);
  }

  /** What a tweet's index document holds: news type 'tweet', the tweet
      text as title, its link as url, the `reply_to` names in order as
      mentions (none without `reply_to`), and as source the entity's class
      and name, or in mentions mode (or without entity) 'TwitterUser' and the
      tweet's `name`. */
  lemma TweetIndexDocContents(tweet: map<string, Value>, entity: Option<Entity>, mentionsMode: bool,
                              fromMillis: int -> Value, parseStamp: Value -> Result<Value>)
    requires TweetIndexDoc(tweet, entity, mentionsMode, fromMillis, parseStamp).Success?
    ensures var d := TweetIndexDoc(tweet, entity, mentionsMode, fromMillis, parseStamp).value;
      var replyTo := if "reply_to" in tweet then tweet["reply_to"] else VList([]);
      && d.Keys == TweetDocKeys
      && d["news_type"] == VStr("tweet")
      && d["title"] == tweet["tweet"]
      && d["url"] == tweet["link"]
      && d["published_on"] == PublishedOn(tweet, fromMillis, parseStamp).value
      && d["mentions"] == VList(ReplyNames(replyTo).value)
      && ("reply_to" !in tweet ==> d["mentions"] == VList([]))
      && (!mentionsMode && entity.Some? ==> d["source_type"] == VStr(entity.value.className) && d["source"] == entity.value.name)
      && (mentionsMode || entity.None? ==> d["source_type"] == VStr("TwitterUser") && d["source"] == GetOrNone(tweet, "name"))
  {
    var metadata := Metadata(tweet);
    assert ("reply_to" in metadata) == ("reply_to" in tweet);
    assert GetOrNone(metadata, "name") == GetOrNone(tweet, "name");
  }

  /** `get_bulk_index_data_for_self` as it is meant to run, over the job's
      tweets (the loop as written iterates the keys of a dict): the cleaned
      config decides the mode once, then the documents in order up to the
      first that fails. */
  function BulkIndexData(entity: Option<Entity>, config: map<string, Value>, tweets: seq<map<string, Value>>,
                         fromMillis: int -> Value, parseStamp: Value -> Result<Value>): (r: (seq<map<string, Value>>, Outcome))
    ensures entity.None? ==> r == ([], Fail(NoEntityError))
    ensures entity.Some? ==>
      r == IndexDocs(tweets, entity, "mentions" in config && Truthy(config["mentions"]), fromMillis, parseStamp)
  {
    match CleanedConfig(entity, config)
    case Failure(e) => ([], Fail(e))
    case Success(cleaned) => IndexDocs(tweets, entity, Truthy(cleaned["mentions"]), fromMillis, parseStamp)
  }

  function IndexDocs(tweets: seq<map<string, Value>>, entity: Option<Entity>, mentionsMode: bool,
                     fromMillis: int -> Value, parseStamp: Value -> Result<Value>): (r: (seq<map<string, Value>>, Outcome))
    ensures |r.0| <= |tweets|
    ensures r.1.Pass? ==> |r.0| == |tweets|
    ensures forall i :: 0 <= i < |r.0| ==> TweetIndexDoc(tweets[i], entity, mentionsMode, fromMillis, parseStamp) == Success(r.0[i])
    ensures r.1.Fail? ==> |r.0| < |tweets| && TweetIndexDoc(tweets[|r.0|], entity, mentionsMode, fromMillis, parseStamp) == Failure(r.1.error)
    decreases |tweets|
  {
    if tweets == [] then ([], Pass)
    else
      match TweetIndexDoc(tweets[0], entity, mentionsMode, fromMillis, parseStamp)
      case Failure(e) => ([], Fail(e))
      case Success(d) =>
        var rest := IndexDocs(tweets[1..], entity, mentionsMode, fromMillis, parseStamp);
        ([d] + rest.0, rest.1)
  }

  /** In mentions mode no document names the entity: every source type is
      'TwitterUser'. */
  lemma MentionsDocsAreTwitterUsers(e: Entity, config: map<string, Value>, tweets: seq<map<string, Value>>,
                                    fromMillis: int -> Value, parseStamp: Value -> Result<Value>)
    requires "mentions" in config && Truthy(config["mentions"])
    ensures var r := BulkIndexData(Some(e), config, tweets, fromMillis, parseStamp);
      forall i :: 0 <= i < |r.0| ==> r.0[i]["source_type"] == VStr("TwitterUser")
  {
    var r := BulkIndexData(Some(e), config, tweets, fromMillis, parseStamp);
    assert CleanedConfig(Some(e), config).value["mentions"] == config["mentions"];
    forall i | 0 <= i < |r.0| ensures r.0[i]["source_type"] == VStr("TwitterUser") {
      TweetIndexDocContents(tweets[i], Some(e), true, fromMillis, parseStamp);
    }
  }

  // ---- Article.process ----

  /** An article's body (None until extracted), its index flag, how often the
      body was fetched and the article pushed, and the `update_fields` of
      every save. */
  datatype ArticleState = ArticleState(body: Value, isPushedToIndex: bool, fetches: nat, pushes: nat, saves: seq<seq<string>>)

  /** `process`: fetch the body if there is none, push unless pushed, then
      save exactly the fields it set. `fetched` is what
      `get_body_from_article(url)` returns or raises, `push` how
      `push_to_index` fares. A failure propagates before the save. */
  function ProcessStep(s: ArticleState, fetched: Result<Value>, push: Outcome): (ArticleState, Outcome) {
    if s.body == VNone && fetched.Failure? then (s.(fetches := s.fetches + 1), Fail(fetched.error))
    else
      var s1 := if s.body == VNone then s.(body := fetched.value, fetches := s.fetches + 1) else s;
      var fields := if s.body == VNone then ["body"] else [];
      if !s.isPushedToIndex && push.Fail? then (s1.(pushes := s1.pushes + 1), push)
      else
        var s2 := if s.isPushedToIndex then s1 else s1.(isPushedToIndex := true, pushes := s1.pushes + 1);
        var fields := if s.isPushedToIndex then fields else fields + ["is_pushed_to_index"];
        if fields != [] then (s2.(saves := s2.saves + [fields]), Pass) else (s2, Pass)
  }

  /** The gated steps: a body is fetched only when there is none, a push is
      made only when not pushed, a failed step saves nothing, and a
      successful call saves once, naming exactly the fields it set. */
  lemma ProcessStepMeaning(s: ArticleState, fetched: Result<Value>, push: Outcome)
    ensures var (t, r) := ProcessStep(s, fetched, push);
      && t.fetches == s.fetches + (if s.body == VNone then 1 else 0)
      && t.pushes == s.pushes + (if !s.isPushedToIndex && (s.body != VNone || fetched.Success?) then 1 else 0)
      && (s.body != VNone ==> t.body == s.body)
      && (s.isPushedToIndex ==> t.isPushedToIndex)
      && (r.Fail? ==> t.saves == s.saves && t.isPushedToIndex == s.isPushedToIndex)
      && (r.Pass? ==> t.isPushedToIndex)
      && (r.Pass? && s.body == VNone ==> t.body == fetched.value)
      && (r.Pass? && s.body != VNone && s.isPushedToIndex ==> t == s)
      && (r.Pass? && (s.body == VNone || !s.isPushedToIndex) ==>
            && t.saves == s.saves + [t.saves[|t.saves| - 1]]
            && ("body" in t.saves[|t.saves| - 1] <==> s.body == VNone)
            && ("is_pushed_to_index" in t.saves[|t.saves| - 1] <==> !s.isPushedToIndex))
  {
  }

  /** A second `process` after a successful one that found a body does
      nothing at all. */
  lemma ProcessIdempotent(s: ArticleState, fetched: Result<Value>, push: Outcome, fetched2: Result<Value>, push2: Outcome)
    requires ProcessStep(s, fetched, push).1.Pass?
    requires ProcessStep(s, fetched, push).0.body != VNone
    ensures var t := ProcessStep(s, fetched, push).0; ProcessStep(t, fetched2, push2) == (t, Pass)
  {
  }

  class Article {
    const url: string
    var body: Value
    var isPushedToIndex: bool
    var fetches: nat
    var pushes: nat
    var saves: seq<seq<string>>

    constructor (url: string, body: Value, isPushedToIndex: bool)
      ensures this.url == url && State() == ArticleState(body, isPushedToIndex, 0, 0, [])
    {
      this.url := url;
      this.body := body;
      this.isPushedToIndex := isPushedToIndex;
      fetches, pushes, saves := 0, 0, [];
    }

    function State(): ArticleState
      reads this
    {
      ArticleState(body, isPushedToIndex, fetches, pushes, saves)
    }

    /** `process`; `getBody` stands for `get_body_from_article`. */
    method Process(getBody: string -> Result<Value>, push: Outcome) returns (r: Outcome)
      modifies this
      ensures (State(), r) == ProcessStep(old(State()), getBody(url), push)
    {
      var saveFields: seq<string> := [];
      if body == VNone {
        fetches := fetches + 1;
        var fetched := getBody(url);
        if fetched.Failure? {
          return Fail(fetched.error);
        }
        body := fetched.value;
        assert saveFields + ["body"] == ["body"];
        saveFields := saveFields + ["body"];
      }
      if !isPushedToIndex {
        pushes := pushes + 1;
        if push.Fail? {
          return push;
        }
        isPushedToIndex := true;
        assert [] + ["is_pushed_to_index"] == ["is_pushed_to_index"];
        saveFields := saveFields + ["is_pushed_to_index"];
      }
      if saveFields != [] {
        saves := saves + [saveFields];
      }
      r := Pass;
    }
  }

  // ---- Feed.crawl_feed ----

  /** The fields `crawl_feed` creates an article with. */
  datatype ArticleRow = ArticleRow(url: Value, title: Value, summary: Value, publishedOn: Value,
                                   isTopNews: bool, metadata: map<string, Value>)

  const PoppedKeys: set<string> := {"link", "published_parsed", "title", "summary"}

  /** One feed entry as `crawl_feed` turns it into article fields: popping
      `link`, `published_parsed` and `title` raises when one is missing,
      `summary` defaults to None, and what is left of the entry is the meta
      data. `convertTime` is the `struct_time` conversion (the identity on
      other values). */
  function EntryArticle(entry: map<string, Value>, isTopNews: bool, convertTime: Value -> Value): (r: Result<ArticleRow>)
    ensures r.Success? <==> "link" in entry && "published_parsed" in entry && "title" in entry
    ensures r.Failure? ==> r.error.kind == "KeyError"
    ensures r.Success? ==> r.value == ArticleRow(entry["link"], entry["title"], GetOrNone(entry, "summary"),
                                                 convertTime(entry["published_parsed"]), isTopNews, r.value.metadata)
    ensures r.Success? ==> r.value.metadata.Keys == entry.Keys - PoppedKeys
    ensures r.Success? ==> forall k :: k in r.value.metadata ==> r.value.metadata[k] == entry[k]
  {
    if "link" !in entry then Failure(MissingKey("link"))
    else if "published_parsed" !in entry then Failure(MissingKey("published_parsed"))
    else if "title" !in entry then Failure(MissingKey("title"))
    else
      var metadata := map k | k in entry && k !in PoppedKeys :: entry[k];
      Success(ArticleRow(entry["link"], entry["title"], GetOrNone(entry, "summary"),
                         convertTime(entry["published_parsed"]), isTopNews, metadata))
  }

  function Urls(rows: seq<ArticleRow>): (r: seq<Value>)
    ensures |r| == |rows| && forall i :: 0 <= i < |rows| ==> r[i] == rows[i].url
  {
    seq(|rows|, i requires 0 <= i < |rows| => rows[i].url)
  }

  /** The entry loop of `crawl_feed` on a table holding `rows`, with the
      articles `queued` for processing so far: `create(rows, a)` is how
      `Article.objects.create` fares against the table as it then stands. A
      duplicate-key error skips the entry, any other error ends the crawl. */
  function CrawlEntries(rows: seq<ArticleRow>, queued: seq<Value>, entries: seq<map<string, Value>>, isTopNews: bool,
                        convertTime: Value -> Value, create: (seq<ArticleRow>, ArticleRow) -> Outcome)
    : (r: (seq<ArticleRow>, seq<Value>, Outcome))
    decreases |entries|
  {
    if entries == [] then (rows, queued, Pass)
    else
      match EntryArticle(entries[0], isTopNews, convertTime)
      case Failure(e) => (rows, queued, Fail(e))
      case Success(a) =>
        match create(rows, a)
        case Pass => CrawlEntries(rows + [a], queued + [a.url], entries[1..], isTopNews, convertTime, create)
        case Fail(e) =>
          if QuerysetUtils.IsDuplicateKey(e) then CrawlEntries(rows, queued, entries[1..], isTopNews, convertTime, create)
          else (rows, queued, Fail(e))
  }

  /** What a crawl from `rows` and `queued` may leave: the rows only grow,
      every new row carries the feed's top-news flag, and the queue grows by
      exactly the new rows' urls, in order. */
  predicate OnlyAddsAndQueues(rows: seq<ArticleRow>, queued: seq<Value>, isTopNews: bool,
                              rows': seq<ArticleRow>, queued': seq<Value>)
  {
    && |rows| <= |rows'| && rows'[..|rows|] == rows
    && queued' == queued + Urls(rows'[|rows|..])
    && (forall i :: |rows| <= i < |rows'| ==> rows'[i].isTopNews == isTopNews)
  }

  lemma OnlyAddsAndQueuesStep(rows: seq<ArticleRow>, queued: seq<Value>, isTopNews: bool, a: ArticleRow,
                              rows': seq<ArticleRow>, queued': seq<Value>)
    requires a.isTopNews == isTopNews
    requires OnlyAddsAndQueues(rows + [a], queued + [a.url], isTopNews, rows', queued')
    ensures OnlyAddsAndQueues(rows, queued, isTopNews, rows', queued')
  {
    assert rows'[..|rows|] == (rows'[..|rows| + 1])[..|rows|];
    assert rows'[|rows|..] == [a] + rows'[|rows| + 1..];
    assert Urls(rows'[|rows|..]) == [a.url] + Urls(rows'[|rows| + 1..]);
  }

  /** The crawl only adds articles, queues exactly the ones it created and in
      that order, tags each with the feed's top-news flag, never creates more
      than one per entry, and never ends on a duplicate-key error. */
  lemma {:induction false} CrawlEntriesMeaning(rows: seq<ArticleRow>, queued: seq<Value>, entries: seq<map<string, Value>>,
                                               isTopNews: bool, convertTime: Value -> Value,
                                               create: (seq<ArticleRow>, ArticleRow) -> Outcome)
    ensures var r := CrawlEntries(rows, queued, entries, isTopNews, convertTime, create);
      && OnlyAddsAndQueues(rows, queued, isTopNews, r.0, r.1)
      && |r.0| <= |rows| + |entries|
      && (r.2.Fail? ==> !QuerysetUtils.IsDuplicateKey(r.2.error))
    decreases |entries|
  {
    assert rows[|rows|..] == [] && queued + [] == queued;
    if entries != [] {
      match EntryArticle(entries[0], isTopNews, convertTime)
      case Failure(e) =>
        assert e.kind == "KeyError";
      case Success(a) =>
        match create(rows, a)
        case Pass =>
          CrawlEntriesMeaning(rows + [a], queued + [a.url], entries[1..], isTopNews, convertTime, create);
          var r := CrawlEntries(rows + [a], queued + [a.url], entries[1..], isTopNews, convertTime, create);
          OnlyAddsAndQueuesStep(rows, queued, isTopNews, a, r.0, r.1);
        case Fail(e) =>
          if QuerysetUtils.IsDuplicateKey(e) {
            CrawlEntriesMeaning(rows, queued, entries[1..], isTopNews, convertTime, create);
          }
    }
  }

  /** One entry against the table and queue as they stand: created,
      appended and queued; refused as a duplicate and skipped; or the error
      that ends the crawl. */
  function CrawlOne(rows: seq<ArticleRow>, queued: seq<Value>, entry: map<string, Value>, isTopNews: bool,
                    convertTime: Value -> Value, create: (seq<ArticleRow>, ArticleRow) -> Outcome)
    : (seq<ArticleRow>, seq<Value>, Outcome)
  {
    match EntryArticle(entry, isTopNews, convertTime)
    case Failure(e) => (rows, queued, Fail(e))
    case Success(a) =>
      match create(rows, a)
      case Pass => (rows + [a], queued + [a.url], Pass)
      case Fail(e) => if QuerysetUtils.IsDuplicateKey(e) then (rows, queued, Pass) else (rows, queued, Fail(e))
  }

  /** The crawl read from its end: one more entry is one more step against
      what the earlier ones left, unless those already failed. */
  lemma {:induction false} CrawlEntriesSnoc(rows: seq<ArticleRow>, queued: seq<Value>, entries: seq<map<string, Value>>,
                                            entry: map<string, Value>, isTopNews: bool, convertTime: Value -> Value,
                                            create: (seq<ArticleRow>, ArticleRow) -> Outcome)
    ensures CrawlEntries(rows, queued, entries + [entry], isTopNews, convertTime, create)
      == (var p := CrawlEntries(rows, queued, entries, isTopNews, convertTime, create);
          if p.2.Fail? then p else CrawlOne(p.0, p.1, entry, isTopNews, convertTime, create))
    decreases |entries|
  {
    if entries == [] {
      assert [entry][1..] == [];
      assert CrawlEntries(rows, queued, [], isTopNews, convertTime, create) == (rows, queued, Pass);
    } else {
      assert (entries + [entry])[0] == entries[0];
      assert (entries + [entry])[1..] == entries[1..] + [entry];
      match EntryArticle(entries[0], isTopNews, convertTime)
      case Failure(e) =>
      case Success(a) =>
        match create(rows, a)
        case Pass => CrawlEntriesSnoc(rows + [a], queued + [a.url], entries[1..], entry, isTopNews, convertTime, create);
        case Fail(e) =>
          if QuerysetUtils.IsDuplicateKey(e) {
            CrawlEntriesSnoc(rows, queued, entries[1..], entry, isTopNews, convertTime, create);
          }
    }
  }

  /** The entry at `i` is where the crawl stops: every earlier entry was
      created or refused as a duplicate, and this one lacks `link`,
      `published_parsed` or `title`, or its create, against the table the
      earlier ones left, fails with another error. */
  predicate CrawlStopsAt(rows: seq<ArticleRow>, queued: seq<Value>, entries: seq<map<string, Value>>, isTopNews: bool,
                         convertTime: Value -> Value, create: (seq<ArticleRow>, ArticleRow) -> Outcome, i: int)
  {
    && 0 <= i < |entries|
    && var p := CrawlEntries(rows, queued, entries[..i], isTopNews, convertTime, create);
    && var article := EntryArticle(entries[i], isTopNews, convertTime);
    && p.2 == Pass
    && (article.Failure?
        || (create(p.0, article.value).Fail? && !QuerysetUtils.IsDuplicateKey(create(p.0, article.value).error)))
  }

  /** The entry at `i` is reached with every earlier one created or refused
      as a duplicate, has its three keys, and is itself either created
      (appended to the table and its url queued) or refused as a duplicate
      and skipped. */
  predicate CrawlPassesAt(rows: seq<ArticleRow>, queued: seq<Value>, entries: seq<map<string, Value>>, isTopNews: bool,
                          convertTime: Value -> Value, create: (seq<ArticleRow>, ArticleRow) -> Outcome, i: int)
  {
    && 0 <= i < |entries|
    && var p := CrawlEntries(rows, queued, entries[..i], isTopNews, convertTime, create);
    && var next := CrawlEntries(rows, queued, entries[..i + 1], isTopNews, convertTime, create);
    && var article := EntryArticle(entries[i], isTopNews, convertTime);
    && p.2 == Pass
    && next.2 == Pass
    && "link" in entries[i] && "published_parsed" in entries[i] && "title" in entries[i]
    && article.Success?
    && ((create(p.0, article.value).Pass? && next.0 == p.0 + [article.value] && next.1 == p.1 + [article.value.url])
        || (create(p.0, article.value).Fail? && QuerysetUtils.IsDuplicateKey(create(p.0, article.value).error)
            && next.0 == p.0 && next.1 == p.1))
  }

  /** The crawl entry by entry: it fails exactly when it reaches an entry
      that lacks a key (a KeyError) or whose create fails with an error
      other than a duplicate key, and then the table and queue are what the
      earlier entries left and the error is that entry's. When it passes,
      every entry had its keys and was created and queued in order or
      refused as a duplicate. */
  lemma {:induction false} CrawlEntriesByPrefix(rows: seq<ArticleRow>, queued: seq<Value>, entries: seq<map<string, Value>>,
                                                isTopNews: bool, convertTime: Value -> Value,
                                                create: (seq<ArticleRow>, ArticleRow) -> Outcome)
    ensures CrawlEntries(rows, queued, entries, isTopNews, convertTime, create).2.Fail?
      <==> exists i :: CrawlStopsAt(rows, queued, entries, isTopNews, convertTime, create, i)
    ensures forall i :: CrawlStopsAt(rows, queued, entries, isTopNews, convertTime, create, i) ==>
      var p := CrawlEntries(rows, queued, entries[..i], isTopNews, convertTime, create);
      var article := EntryArticle(entries[i], isTopNews, convertTime);
      CrawlEntries(rows, queued, entries, isTopNews, convertTime, create)
        == (p.0, p.1, if article.Failure? then Fail(article.error) else create(p.0, article.value))
    ensures CrawlEntries(rows, queued, entries, isTopNews, convertTime, create).2.Pass? ==>
      forall i :: 0 <= i < |entries| ==> CrawlPassesAt(rows, queued, entries, isTopNews, convertTime, create, i)
    decreases |entries|
  {
    var n := |entries|;
    if n > 0 {
      var q := entries[..n - 1];
      var entry := entries[n - 1];
      assert entries == q + [entry];
      CrawlEntriesByPrefix(rows, queued, q, isTopNews, convertTime, create);
      CrawlEntriesSnoc(rows, queued, q, entry, isTopNews, convertTime, create);
      forall i | 0 <= i <= n - 1
        ensures entries[..i] == q[..i]
      {
      }
      forall i | 0 <= i < n - 1
        ensures CrawlStopsAt(rows, queued, entries, isTopNews, convertTime, create, i)
            <==> CrawlStopsAt(rows, queued, q, isTopNews, convertTime, create, i)
      {
        assert entries[i] == q[i];
      }
      forall i | CrawlStopsAt(rows, queued, entries, isTopNews, convertTime, create, i)
        ensures var p := CrawlEntries(rows, queued, entries[..i], isTopNews, convertTime, create);
          var article := EntryArticle(entries[i], isTopNews, convertTime);
          CrawlEntries(rows, queued, entries, isTopNews, convertTime, create)
            == (p.0, p.1, if article.Failure? then Fail(article.error) else create(p.0, article.value))
      {
        if i < n - 1 {
          assert CrawlStopsAt(rows, queued, q, isTopNews, convertTime, create, i);
          assert entries[i] == q[i];
        } else {
          assert entries[..i] == q && entries[i] == entry;
        }
      }
      if CrawlEntries(rows, queued, entries, isTopNews, convertTime, create).2.Fail? {
        if CrawlEntries(rows, queued, q, isTopNews, convertTime, create).2.Fail? {
          var i :| CrawlStopsAt(rows, queued, q, isTopNews, convertTime, create, i);
          assert CrawlStopsAt(rows, queued, entries, isTopNews, convertTime, create, i);
        } else {
          assert entries[..n - 1] == q && entries[n - 1] == entry;
          assert CrawlStopsAt(rows, queued, entries, isTopNews, convertTime, create, n - 1);
        }
      } else {
        assert CrawlEntries(rows, queued, q, isTopNews, convertTime, create).2 == Pass;
        forall i | 0 <= i < n
          ensures CrawlPassesAt(rows, queued, entries, isTopNews, convertTime, create, i)
        {
          if i < n - 1 {
            assert CrawlPassesAt(rows, queued, q, isTopNews, convertTime, create, i);
            assert entries[..i + 1] == q[..i + 1];
            assert entries[i] == q[i];
          } else {
            assert entries[..i + 1] == entries && entries[..i] == q && entries[i] == entry;
            var p := CrawlEntries(rows, queued, q, isTopNews, convertTime, create);
            assert CrawlEntries(rows, queued, entries, isTopNews, convertTime, create)
                == CrawlOne(p.0, p.1, entry, isTopNews, convertTime, create);
          }
        }
      }
    }
  }

  /** The articles table and the processing queue `crawl_feed` feeds. */
  class ArticleTable {
    var rows: seq<ArticleRow>
    var queued: seq<Value>

    constructor (rows: seq<ArticleRow>)
      ensures this.rows == rows && queued == []
    {
      this.rows := rows;
      queued := [];
    }
  }

  class Feed {
    const isTopNews: bool
    const isArchive: bool

    constructor (isTopNews: bool, isArchive: bool)
      ensures this.isTopNews == isTopNews && this.isArchive == isArchive
    {
      this.isTopNews := isTopNews;
      this.isArchive := isArchive;
    }

    /** `crawl_feed`; `entries` is `feedparser.parse(self.url)['entries']`. */
    method CrawlFeed(table: ArticleTable, entries: seq<map<string, Value>>, convertTime: Value -> Value,
                     create: (seq<ArticleRow>, ArticleRow) -> Outcome)
      returns (r: Outcome)
      modifies table
      ensures isArchive ==> r == Pass && table.rows == old(table.rows) && table.queued == old(table.queued)
      ensures !isArchive ==> (table.rows, table.queued, r) == CrawlEntries(old(table.rows), old(table.queued), entries, isTopNews, convertTime, create)
    {
      if isArchive {
        return Pass;
      }
      var i := 0;
      while i < |entries|
        invariant 0 <= i <= |entries|
        invariant CrawlEntries(old(table.rows), old(table.queued), entries, isTopNews, convertTime, create)
               == CrawlEntries(table.rows, table.queued, entries[i..], isTopNews, convertTime, create)
      {
        assert entries[i..][1..] == entries[i + 1..];
        var article := EntryArticle(entries[i], isTopNews, convertTime);
        if article.Failure? {
          return Fail(article.error);
        }
        var a := article.value;
        var created := create(table.rows, a);
        if created.Fail? {
          if !QuerysetUtils.IsDuplicateKey(created.error) {
            return created;
          }
        } else {
          table.rows := table.rows + [a];
          table.queued := table.queued + [a.url];
        }
        i := i + 1;
      }
      r := Pass;
    }
  }
}
