/** mnemonic/news/utils/twitter_utils.py: the job signature of a twint crawl,
    the buffer and resume file names derived from it, and the append-only
    crawl buffer the crawl writes into and is replayed from. */
module TwitterUtils {
  import opened Wrappers
  import opened Text
  import opened DateFormat
  import opened PyValues
  import opened MsgpackUtils

  /** `vars(tweet)`: a twint tweet is the mapping of its attributes. */
  type Tweet = map<string, Value>

  /** A `%`-format string with a single `%s`: the text around it. */
  datatype NameTemplate = NameTemplate(head: string, tail: string)

  const ResultsTemplate := NameTemplate("state/twint/results_", ".msgpack")
  const ResumeTemplate := NameTemplate("state/twint/resume_", ".txt")

  /** `get_crawl_fname(prefix, signature_parts)`. `slugify` stands for
      `string_utils.slugify(_, retain_punct={'@'})`, which is not part of
      this model. */
  function GetCrawlFname(prefix: NameTemplate, parts: seq<string>, slugify: string -> string): (r: string)
    ensures |r| == |prefix.head| + |slugify(Join("_", parts))| + |prefix.tail|
    ensures r[..|prefix.head|] == prefix.head
    ensures r[|prefix.head|..|r| - |prefix.tail|] == slugify(Join("_", parts))
    ensures r[|r| - |prefix.tail|..] == prefix.tail
  {
    prefix.head + slugify(Join("_", parts)) + prefix.tail
  }

  /** The fields `get_tweets_for_username` sets on its `twint.Config`; None
      is a field left at its default. */
  datatype TwintConfig = TwintConfig(
    search: Option<string>, username: Option<string>, limit: Option<int>,
    since: Option<string>, until: Option<string>, lang: Option<string>,
    storeObject: bool, resume: Option<string>)

  const BlankConfig := TwintConfig(None, None, None, None, None, None, false, None)

  /** The configuration and signature tokens built before the buffer is
      opened. */
  datatype SearchSetup = SearchSetup(config: TwintConfig, parts: seq<string>)

  /** Lines 34-54 of `get_tweets_for_username`: the handle (`'@' + username`
      in mentions mode) starts the signature, then the since and until
      bounds in that order; limit and language only reach the config. */
  function ConfigureSearch(username: string, limit: Option<int>, since: Option<DateTime>, until: Option<DateTime>,
                           mentions: bool, language: Option<string>): SearchSetup
  {
    var c := if mentions then BlankConfig.(search := Some("@" + username))
             else BlankConfig.(username := Some(username));
    var parts := if mentions then ["@" + username] else [username];
    var c := if limit.Some? && limit.value != 0 then c.(limit := limit) else c;
    var sinceTok := if since.Some? then [SecondsStamp(since.value)] else [];
    var c := if since.Some? then c.(since := Some(SecondsStamp(since.value))) else c;
    var untilTok := if until.Some? then [SecondsStamp(until.value)] else [];
    var c := if until.Some? then c.(until := Some(SecondsStamp(until.value))) else c;
    var c := if language.Some? && language.value != "" then c.(lang := language) else c;
    SearchSetup(c, parts + sinceTok + untilTok)
  }

  /** The signature tokens as the crawl's parameters determine them. */
  lemma SignatureTokens(username: string, limit: Option<int>, since: Option<DateTime>, until: Option<DateTime>,
                        mentions: bool, language: Option<string>)
    ensures var parts := ConfigureSearch(username, limit, since, until, mentions, language).parts;
      && |parts| == 1 + (if since.Some? then 1 else 0) + (if until.Some? then 1 else 0)
      && parts[0] == (if mentions then "@" + username else username)
      && (since.Some? ==> parts[1] == SecondsStamp(since.value))
      && (until.Some? ==> parts[|parts| - 1] == SecondsStamp(until.value))
  {
  }

  /** Limit and language never enter the signature, so two crawls that
      differ only in them write the same buffer file and resume from the
      same resume file. */
  lemma LimitAndLanguageShareFiles(username: string, since: Option<DateTime>, until: Option<DateTime>, mentions: bool,
                                   limit1: Option<int>, language1: Option<string>,
                                   limit2: Option<int>, language2: Option<string>, slugify: string -> string)
    ensures var p1 := ConfigureSearch(username, limit1, since, until, mentions, language1).parts;
            var p2 := ConfigureSearch(username, limit2, since, until, mentions, language2).parts;
      && p1 == p2
      && GetCrawlFname(ResultsTemplate, p1, slugify) == GetCrawlFname(ResultsTemplate, p2, slugify)
      && GetCrawlFname(ResumeTemplate, p1, slugify) == GetCrawlFname(ResumeTemplate, p2, slugify)
  {
  }

  /** The buffer and the resume file carry the same slug in two different
      prefixes, so they never collide. */
  lemma BufferAndResumeNamesDiffer(parts: seq<string>, slugify: string -> string)
    ensures GetCrawlFname(ResultsTemplate, parts, slugify) != GetCrawlFname(ResumeTemplate, parts, slugify)
  {
    var a := GetCrawlFname(ResultsTemplate, parts, slugify);
    var b := GetCrawlFname(ResumeTemplate, parts, slugify);
    assert a[16] == 'l' && b[16] == 'm';
  }

  /** The files under `state/twint/`: each file is the sequence of records
      written to it, one `dumps(vars(tweet))` per write. */
  class RecordStore {
    var files: map<string, seq<Value>>

    constructor (files: map<string, seq<Value>>)
      ensures this.files == files
    {
      this.files := files;
    }
  }

  /** What a file holds before it is opened for appending: its records, or
      nothing when opening it creates it. */
  function Existing(files: map<string, seq<Value>>, name: string): seq<Value> {
    if name in files then files[name] else []
  }

  /** The files after a run of records is appended to `name`, which is
      created when missing. */
  function AppendRun(files: map<string, seq<Value>>, name: string, run: seq<Value>): (r: map<string, seq<Value>>)
    ensures name in r && r[name] == Existing(files, name) + run
  {
    files[name := Existing(files, name) + run]
  }

  /** The records `dumps` writes for a run of tweets, in order. */
  function PackAll(tweets: seq<Tweet>): (r: seq<Value>)
    ensures |r| == |tweets|
    ensures forall i :: 0 <= i < |tweets| ==> r[i] == Pack(VMap(tweets[i]))
  {
    if tweets == [] then [] else [Pack(VMap(tweets[0]))] + PackAll(tweets[1..])
  }

  /** Packing one more tweet adds its record at the end. */
  lemma PackAllSnoc(found: seq<Tweet>, i: nat)
    requires i < |found|
    ensures PackAll(found[..i + 1]) == PackAll(found[..i]) + [Pack(VMap(found[i]))]
  {
  }

  const ClosedFileError := Error("ValueError", "write to closed file")
  const PairLengthError := Error("ValueError", "dictionary update sequence element has wrong length; 2 is required")
  const ElementNotSequenceError := Error("TypeError", "cannot convert dictionary update sequence element to a sequence")
  const RecordNotIterableError := Error("TypeError", "object is not iterable")
  /** An attribute name that is not a string (an int, a tuple, a key pair
      of a two-key dict): Python would set it, a `Tweet` here cannot hold it. */
  const NonStringNameError := Error("TypeError", "attribute name is not a string")
  /** A two-key dict as a pair: Python takes its keys in insertion order as
      name and value, an order a `map` does not keep. */
  const UnorderedDictPairError := Error("TypeError", "pair from a dict whose key order is not kept")

  /** A two-element sequence as a `dict.update` pair: the name and the
      value. */
  function PairOf(xs: seq<Value>): Result<(string, Value)> {
    if |xs| != 2 then Failure(PairLengthError)
    else if xs[0].VStr? then Success((xs[0].s, xs[1]))
    else if !Hashable(xs[0]) then Failure(UnhashableError)
    else Failure(NonStringNameError)
  }

  /** One element of a `dict.update` sequence as the attribute it sets: a
      list or tuple of two, or a string of two characters; anything else of
      another length, or not iterable at all, raises. */
  function UpdatePair(x: Value): (r: Result<(string, Value)>)
    ensures r.Success? <==> ((x.VList? || x.VTuple?) && PairOf(if x.VList? then x.items else x.elems).Success?)
                            || (x.VStr? && |x.s| == 2)
    ensures x.VStr? && |x.s| == 2 ==> r == Success(([x.s[0]], VStr([x.s[1]])))
    ensures (x.VNone? || x.VBool? || x.VInt? || x.VDateTime?) ==> r == Failure(ElementNotSequenceError)
    ensures x.VMap? ==> r == Failure(if |x.entries| == 2 then UnorderedDictPairError else PairLengthError)
  {
    match x
    case VList(xs) => PairOf(xs)
    case VTuple(xs) => PairOf(xs)
    case VStr(s) => if |s| == 2 then Success(([s[0]], VStr([s[1]]))) else Failure(PairLengthError)
    case VBytes(b) => if |b| == 2 then Failure(NonStringNameError) else Failure(PairLengthError)
    case VMap(m) => if |m| == 2 then Failure(UnorderedDictPairError) else Failure(PairLengthError)
    case _ => Failure(ElementNotSequenceError)
  }

  /** `acc.update(xs)` for a sequence `xs` of pairs, left to right; the
      first element that is not a pair raises. */
  function UpdateFromPairs(acc: map<string, Value>, xs: seq<Value>): Result<map<string, Value>>
    decreases |xs|
  {
    if xs == [] then Success(acc)
    else
      match UpdatePair(xs[0])
      case Failure(e) => Failure(e)
      case Success(p) => UpdateFromPairs(acc[p.0 := p.1], xs[1..])
  }

  /** Every element of `xs` is a pair. */
  predicate AllPairs(xs: seq<Value>) {
    forall i :: 0 <= i < |xs| ==> UpdatePair(xs[i]).Success?
  }

  /** The name the pair at `i` sets. */
  function NameAt(xs: seq<Value>, i: int): string
    requires AllPairs(xs) && 0 <= i < |xs|
  {
    UpdatePair(xs[i]).value.0
  }

  lemma AllPairsTail(xs: seq<Value>)
    requires xs != []
    ensures AllPairs(xs) <==> UpdatePair(xs[0]).Success? && AllPairs(xs[1..])
    ensures AllPairs(xs) ==> forall i :: 1 <= i < |xs| ==> NameAt(xs, i) == NameAt(xs[1..], i - 1)
  {
    assert forall i :: 1 <= i < |xs| ==> xs[i] == xs[1..][i - 1];
  }

  /** The update raises exactly when some element is not a pair, and then
      with the first such element's error. */
  lemma {:induction false} UpdateFromPairsFailure(acc: map<string, Value>, xs: seq<Value>)
    ensures var r := UpdateFromPairs(acc, xs);
      && (r.Success? <==> AllPairs(xs))
      && (r.Failure? ==> exists i :: 0 <= i < |xs| && UpdatePair(xs[i]) == Failure(r.error)
                                     && forall j :: 0 <= j < i ==> UpdatePair(xs[j]).Success?)
    decreases |xs|
  {
    if xs != [] {
      AllPairsTail(xs);
      var rest := xs[1..];
      match UpdatePair(xs[0])
      case Failure(e) =>
        assert UpdatePair(xs[0]) == Failure(e);
      case Success(p) =>
        UpdateFromPairsFailure(acc[p.0 := p.1], rest);
        var r := UpdateFromPairs(acc[p.0 := p.1], rest);
        if r.Failure? {
          var i :| 0 <= i < |rest| && UpdatePair(rest[i]) == Failure(r.error)
                   && forall j :: 0 <= j < i ==> UpdatePair(rest[j]).Success?;
          assert xs[i + 1] == rest[i];
          forall j | 0 <= j < i + 1 ensures UpdatePair(xs[j]).Success? {
            if j > 0 { assert xs[j] == rest[j - 1]; }
          }
        }
    }
  }

  /** After a clean update the names are the old ones and those of the
      pairs. */
  lemma {:induction false} UpdateFromPairsNames(acc: map<string, Value>, xs: seq<Value>)
    requires AllPairs(xs)
    ensures UpdateFromPairs(acc, xs).Success?
    ensures UpdateFromPairs(acc, xs).value.Keys == acc.Keys + (set i | 0 <= i < |xs| :: NameAt(xs, i))
    decreases |xs|
  {
    if xs != [] {
      AllPairsTail(xs);
      var rest := xs[1..];
      var p := UpdatePair(xs[0]).value;
      UpdateFromPairsNames(acc[p.0 := p.1], rest);
      var names := set i | 0 <= i < |xs| :: NameAt(xs, i);
      var restNames := set i | 0 <= i < |rest| :: NameAt(rest, i);
      forall k | k in names ensures k in {p.0} + restNames {
        var i :| 0 <= i < |xs| && NameAt(xs, i) == k;
        if i > 0 { assert NameAt(rest, i - 1) == k; }
      }
      forall k | k in restNames ensures k in names {
        var i :| 0 <= i < |rest| && NameAt(rest, i) == k;
        assert NameAt(xs, i + 1) == k;
      }
      assert NameAt(xs, 0) == p.0;
      assert names == {p.0} + restNames;
    }
  }

  /** After a clean update the last pair with a name decides its value. */
  lemma {:induction false} UpdateFromPairsLastWins(acc: map<string, Value>, xs: seq<Value>, i: int)
    requires AllPairs(xs) && 0 <= i < |xs|
    requires forall j :: i < j < |xs| ==> NameAt(xs, j) != NameAt(xs, i)
    ensures UpdateFromPairs(acc, xs).Success?
    ensures NameAt(xs, i) in UpdateFromPairs(acc, xs).value
    ensures UpdateFromPairs(acc, xs).value[NameAt(xs, i)] == UpdatePair(xs[i]).value.1
    decreases |xs|
  {
    AllPairsTail(xs);
    var rest := xs[1..];
    var p := UpdatePair(xs[0]).value;
    if i == 0 {
      forall j | 0 <= j < |rest| ensures NameAt(rest, j) != p.0 {
        assert NameAt(rest, j) == NameAt(xs, j + 1);
      }
      UpdateFromPairsKeeps(acc[p.0 := p.1], rest, p.0);
    } else {
      forall j | i - 1 < j < |rest| ensures NameAt(rest, j) != NameAt(rest, i - 1) {
        assert NameAt(rest, j) == NameAt(xs, j + 1);
      }
      UpdateFromPairsLastWins(acc[p.0 := p.1], rest, i - 1);
    }
  }

  /** After a clean update a name no pair sets keeps its value. */
  lemma {:induction false} UpdateFromPairsKeeps(acc: map<string, Value>, xs: seq<Value>, k: string)
    requires AllPairs(xs) && k in acc
    requires forall i :: 0 <= i < |xs| ==> NameAt(xs, i) != k
    ensures UpdateFromPairs(acc, xs).Success?
    ensures k in UpdateFromPairs(acc, xs).value && UpdateFromPairs(acc, xs).value[k] == acc[k]
    decreases |xs|
  {
    if xs == [] {
    } else {
      AllPairsTail(xs);
      var rest := xs[1..];
      var p := UpdatePair(xs[0]).value;
      assert NameAt(xs, 0) != k;
      forall j | 0 <= j < |rest| ensures NameAt(rest, j) != k {
        assert NameAt(rest, j) == NameAt(xs, j + 1);
      }
      UpdateFromPairsKeeps(acc[p.0 := p.1], rest, k);
    }
  }

  /** What updating with a pair sequence means: it raises exactly when some
      element is not a pair, with the first such element's error; otherwise
      the names are the old ones and those of the pairs, the last pair with
      a name decides its value, and names no pair sets keep theirs. */
  lemma UpdateFromPairsMeaning(acc: map<string, Value>, xs: seq<Value>)
    ensures var r := UpdateFromPairs(acc, xs);
      && (r.Success? <==> AllPairs(xs))
      && (r.Failure? ==> exists i :: 0 <= i < |xs| && UpdatePair(xs[i]) == Failure(r.error)
                                     && forall j :: 0 <= j < i ==> UpdatePair(xs[j]).Success?)
      && (r.Success? ==> r.value.Keys == acc.Keys + (set i | 0 <= i < |xs| :: NameAt(xs, i)))
      && (r.Success? ==> forall i :: 0 <= i < |xs| && (forall j :: i < j < |xs| ==> NameAt(xs, j) != NameAt(xs, i))
                                     ==> r.value[NameAt(xs, i)] == UpdatePair(xs[i]).value.1)
      && (r.Success? ==> forall k :: k in acc && (forall i :: 0 <= i < |xs| ==> NameAt(xs, i) != k)
                                     ==> r.value[k] == acc[k])
  {
    UpdateFromPairsFailure(acc, xs);
    if AllPairs(xs) {
      UpdateFromPairsNames(acc, xs);
      forall i | 0 <= i < |xs| && (forall j :: i < j < |xs| ==> NameAt(xs, j) != NameAt(xs, i))
        ensures UpdateFromPairs(acc, xs).value[NameAt(xs, i)] == UpdatePair(xs[i]).value.1
      {
        UpdateFromPairsLastWins(acc, xs, i);
      }
      forall k | k in acc && (forall i :: 0 <= i < |xs| ==> NameAt(xs, i) != k)
        ensures UpdateFromPairs(acc, xs).value[k] == acc[k]
      {
        UpdateFromPairsKeeps(acc, xs, k);
      }
    }
  }

  /** The attributes `t.__dict__.update(d)` leaves on a fresh `Tweet()`: a
      mapping's items; for a list or tuple, its pairs; for an empty string
      or bytes, none. Anything else raises: a non-empty string (its
      characters are not pairs), non-empty bytes (ints are not sequences)
      and a scalar (not iterable). */
  function Attributes(d: Value): (r: Result<Tweet>)
    ensures d.VMap? ==> r == Success(d.entries)
    ensures d.VList? ==> r == UpdateFromPairs(map[], d.items)
    ensures d.VTuple? ==> r == UpdateFromPairs(map[], d.elems)
    ensures d.VStr? ==> r == if d.s == [] then Success(map[]) else Failure(PairLengthError)
    ensures d.VBytes? ==> r == if d.bytes == [] then Success(map[]) else Failure(ElementNotSequenceError)
    ensures (d.VNone? || d.VBool? || d.VInt? || d.VDateTime?) ==> r == Failure(RecordNotIterableError)
  {
    match d
    case VMap(m) => Success(m)
    case VList(xs) => UpdateFromPairs(map[], xs)
    case VTuple(xs) => UpdateFromPairs(map[], xs)
    case VStr(s) => if s == [] then Success(map[]) else Failure(PairLengthError)
    case VBytes(b) => if b == [] then Success(map[]) else Failure(ElementNotSequenceError)
    case _ => Failure(RecordNotIterableError)
  }

  /** `get_data`'s loop over the decoded stream: each record is unpacked and
      becomes a tweet whose attributes it sets; a record that cannot update
      a `__dict__` stops the generator with its error. */
  function Replay(records: seq<Value>): (r: (seq<Tweet>, Outcome))
    ensures |r.0| <= |records|
    ensures r.1.Pass? ==> |r.0| == |records|
  {
    if records == [] then ([], Pass)
    else
      match Attributes(Unpack(records[0]))
      case Success(m) =>
        var rest := Replay(records[1..]);
        ([m] + rest.0, rest.1)
      case Failure(e) => ([], Fail(e))
  }

  /** Replaying what was appended gives back every tweet, in append order. */
  lemma {:induction false} ReplayOfAppended(tweets: seq<Tweet>)
    requires forall i :: 0 <= i < |tweets| ==> RoundTrips(VMap(tweets[i]))
    ensures Replay(PackAll(tweets)) == (tweets, Pass)
  {
    if tweets != [] {
      var p := PackAll(tweets);
      UnpackPack(VMap(tweets[0]));
      assert Unpack(p[0]) == VMap(tweets[0]);
      assert Attributes(Unpack(p[0])) == Success(tweets[0]);
      ReplayStep(p);
      assert p[1..] == PackAll(tweets[1..]);
      ReplayOfAppended(tweets[1..]);
      assert [tweets[0]] + tweets[1..] == tweets;
    }
  }

  /** Every replayed tweet carries the attributes of the record at its
      position; replay passes exactly when every record sets a `__dict__`,
      and otherwise stops at the first that does not, with its error. */
  lemma {:induction false} ReplayUnpacks(records: seq<Value>)
    ensures var r := Replay(records);
      && (forall i :: 0 <= i < |r.0| ==> Attributes(Unpack(records[i])) == Success(r.0[i]))
      && (r.1.Pass? <==> forall i :: 0 <= i < |records| ==> Attributes(Unpack(records[i])).Success?)
      && (r.1.Fail? ==> |r.0| < |records| && Attributes(Unpack(records[|r.0|])) == Failure(r.1.error))
  {
    if records != [] && Attributes(Unpack(records[0])).Success? {
      ReplayUnpacks(records[1..]);
      ReplayStep(records);
      assert forall i :: 1 <= i < |records| ==> records[i] == records[1..][i - 1];
    }
  }

  /** One step of `Replay` on a record that sets a `__dict__`. */
  lemma ReplayStep(records: seq<Value>)
    requires records != [] && Attributes(Unpack(records[0])).Success?
    ensures Replay(records) == ([Attributes(Unpack(records[0])).value] + Replay(records[1..]).0, Replay(records[1..]).1)
  {
  }

  /** Replay runs through a prefix that replays cleanly and carries on
      with the rest. */
  lemma {:induction false} ReplayAppend(a: seq<Value>, b: seq<Value>)
    requires Replay(a).1.Pass?
    ensures Replay(a + b) == (Replay(a).0 + Replay(b).0, Replay(b).1)
  {
    if a == [] {
      assert a + b == b;
      assert Replay(a).0 == [];
      assert [] + Replay(b).0 == Replay(b).0;
    } else {
      assert Attributes(Unpack(a[0])).Success?;
      assert (a + b)[0] == a[0];
      assert (a + b)[1..] == a[1..] + b;
      ReplayStep(a);
      ReplayStep(a + b);
      ReplayAppend(a[1..], b);
      var m := Attributes(Unpack(a[0])).value;
      assert [m] + (Replay(a[1..]).0 + Replay(b).0) == ([m] + Replay(a[1..]).0) + Replay(b).0;
    }
  }

  /** Replay of a file that already held records replays those first. */
  lemma ReplayKeepsEarlierRuns(earlier: seq<Value>, tweets: seq<Tweet>)
    requires Replay(earlier).1.Pass?
    requires forall i :: 0 <= i < |tweets| ==> RoundTrips(VMap(tweets[i]))
    ensures Replay(earlier + PackAll(tweets)) == (Replay(earlier).0 + tweets, Pass)
  {
    ReplayAppend(earlier, PackAll(tweets));
    ReplayOfAppended(tweets);
  }

  /** `CrawlBuffer`: the results file of one signature, opened `'ab'`. */
  class CrawlBuffer {
    const fname: string
    const store: RecordStore
    var isOpen: bool

    ghost predicate Valid()
      reads this, store
    {
      fname in store.files
    }

    /** `__init__`: opening in append mode creates the file if it is missing
        and keeps what it holds otherwise. */
    constructor (parts: seq<string>, store: RecordStore, slugify: string -> string)
      modifies store
      ensures Valid() && isOpen && this.store == store
      ensures fname == GetCrawlFname(ResultsTemplate, parts, slugify)
      ensures store.files == old(store.files)[fname := Existing(old(store.files), fname)]
    {
      fname := GetCrawlFname(ResultsTemplate, parts, slugify);
      this.store := store;
      isOpen := true;
      new;
      store.files := store.files[fname := Existing(store.files, fname)];
    }

    /** `append`: one record at the end of the file per call; a closed file
        raises instead. */
    method Append(tweet: Tweet) returns (r: Outcome)
      requires Valid()
      modifies store
      ensures Valid()
      ensures old(isOpen) ==> r.Pass? && store.files == old(store.files)[fname := old(store.files[fname]) + [Pack(VMap(tweet))]]
      ensures !old(isOpen) ==> r == Fail(ClosedFileError) && store.files == old(store.files)
    {
      if !isOpen {
        return Fail(ClosedFileError);
      }
      store.files := store.files[fname := store.files[fname] + [Pack(VMap(tweet))]];
      r := Pass;
    }

    /** The crawl source appending one record per tweet it finds, in order,
        to the open buffer. */
    method AppendAll(found: seq<Tweet>)
      requires Valid() && isOpen
      modifies store
      ensures Valid() && isOpen
      ensures store.files == old(store.files)[fname := old(store.files[fname]) + PackAll(found)]
    {
      ghost var before := store.files[fname];
      assert PackAll(found[..0]) == [] by { assert found[..0] == []; }
      assert before + PackAll(found[..0]) == before;
      var i := 0;
      while i < |found|
        invariant 0 <= i <= |found|
        invariant Valid() && isOpen
        invariant store.files == old(store.files)[fname := before + PackAll(found[..i])]
      {
        var _ := Append(found[i]);
        PackAllSnoc(found, i);
        assert (before + PackAll(found[..i])) + [Pack(VMap(found[i]))] == before + PackAll(found[..i + 1]);
        i := i + 1;
      }
      assert found[..i] == found;
    }

    /** `get_data`, run to the end: closes the file, then rebuilds a tweet
        from every record in file order. */
    method GetData() returns (tweets: seq<Tweet>, r: Outcome)
      requires Valid()
      modifies this
      ensures Valid() && !isOpen
      ensures (tweets, r) == Replay(store.files[fname])
    {
      isOpen := false;
      var records := store.files[fname];
      tweets, r := [], Pass;
      var i := 0;
      assert records[0..] == records;
      assert [] + Replay(records).0 == Replay(records).0;
      while i < |records|
        invariant 0 <= i <= |records|
        invariant !isOpen
        invariant Replay(records) == (tweets + Replay(records[i..]).0, Replay(records[i..]).1)
      {
        var d := Attributes(Unpack(records[i]));
        assert records[i..][1..] == records[i + 1..];
        if d.Failure? {
          assert tweets + [] == tweets;
          return tweets, Fail(d.error);
        }
        ReplayStep(records[i..]);
        assert tweets + ([d.value] + Replay(records[i + 1..]).0) == (tweets + [d.value]) + Replay(records[i + 1..]).0;
        tweets := tweets + [d.value];
        i := i + 1;
      }
      assert records[i..] == [];
      assert tweets + [] == tweets;
    }
  }

  /** The config the crawl runs with: the search setup, `Store_object` on
      and the resume file of the same signature. */
  function CrawlConfig(setup: SearchSetup, slugify: string -> string): TwintConfig {
    setup.config.(storeObject := true, resume := Some(GetCrawlFname(ResumeTemplate, setup.parts, slugify)))
  }

  /** `get_tweets_for_username`, the retries aside: configure the search,
      open the buffer, let the crawl source append every tweet it finds
      (skipped with `only_cached`), then replay the whole buffer. `search`
      stands for the tweets `twint.run.Search` hands to the buffer. */
  method GetTweetsForUsername(store: RecordStore, username: string, limit: Option<int>,
                              since: Option<DateTime>, until: Option<DateTime>, mentions: bool,
                              language: Option<string>, onlyCached: bool,
                              slugify: string -> string, search: TwintConfig -> seq<Tweet>)
    returns (config: TwintConfig, tweets: seq<Tweet>, r: Outcome)
    modifies store
    ensures config == CrawlConfig(ConfigureSearch(username, limit, since, until, mentions, language), slugify)
    ensures config.storeObject && config.resume == Some(GetCrawlFname(ResumeTemplate, ConfigureSearch(username, limit, since, until, mentions, language).parts, slugify))
    ensures var name := GetCrawlFname(ResultsTemplate, ConfigureSearch(username, limit, since, until, mentions, language).parts, slugify);
      && store.files == AppendRun(old(store.files), name, if onlyCached then [] else PackAll(search(config)))
      && (tweets, r) == Replay(store.files[name])
  {
    var setup := ConfigureSearch(username, limit, since, until, mentions, language);
    var buffer := new CrawlBuffer(setup.parts, store, slugify);
    config := CrawlConfig(setup, slugify);
    ghost var name := buffer.fname;
    ghost var before := store.files[name];
    if !onlyCached {
      buffer.AppendAll(search(config));
      assert store.files == old(store.files)[name := before + PackAll(search(config))];
    } else {
      assert before + [] == before;
    }
    tweets, r := buffer.GetData();
  }
}
