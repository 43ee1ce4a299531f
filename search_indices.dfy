/** mnemonic/news/search_indices.py: how an indexable record becomes a
    `News` document (its meta data and its non-empty fields) and the retry
    policy `push_to_index` saves it under. The save itself is remote and is a
    parameter: `save(doc, k)` is how the k-th attempt fares. */
module SearchIndices {
  import opened Wrappers
  import opened PyValues

  /** The `INDEX_*_FIELD` names of an indexable class; each is the attribute
      path `get(self, _)` resolves, None where the class sets none. */
  datatype IndexFieldNames = IndexFieldNames(
    newsType: Option<string>, source: Option<string>, sourceType: Option<string>, mentions: Option<string>,
    title: Option<string>, body: Option<string>, publishedOn: Option<string>, url: Option<string>)

  const IndexKeys: set<string> := {"news_type", "source", "source_type", "mentions", "title", "body", "published_on", "url"}

  /** The attribute path behind each document key. */
  function FieldFor(names: IndexFieldNames, key: string): Option<string>
    requires key in IndexKeys
  {
    if key == "news_type" then names.newsType
    else if key == "source" then names.source
    else if key == "source_type" then names.sourceType
    else if key == "mentions" then names.mentions
    else if key == "title" then names.title
    else if key == "body" then names.body
    else if key == "published_on" then names.publishedOn
    else names.url
  }

  /** `v in django.core.validators.EMPTY_VALUES`, i.e. equal to one of
      `None, '', [], (), {}`; False, 0 and empty bytes are not empty here. */
  predicate IsEmptyValue(v: Value) {
    v == VNone || v == VStr("") || v == VList([]) || v == VTuple([]) || v == VMap(map[])
  }

  /** `get_index_meta_data`: the document id is the record's uid. */
  function GetIndexMetaData(uid: Value): (r: map<string, Value>)
    ensures r.Keys == {"id"} && r["id"] == uid
  {
    map["id" := uid]
  }

  /** `get_index_data`: the eight fields looked up through `lookup` (which
      stands for `get(self, name)`), without the empty ones. */
  function GetIndexData(names: IndexFieldNames, lookup: Option<string> -> Value): (r: map<string, Value>)
    ensures r.Keys <= IndexKeys
    ensures forall k :: k in r ==> !IsEmptyValue(r[k])
    ensures forall k :: k in IndexKeys ==>
      (k in r <==> !IsEmptyValue(lookup(FieldFor(names, k))))
    ensures forall k :: k in r ==> r[k] == lookup(FieldFor(names, k))
  {
    var d := map k | k in IndexKeys :: lookup(FieldFor(names, k));
    map k | k in d && !IsEmptyValue(d[k]) :: d[k]
  }

  /** The `News(meta=..., **fields)` document. */
  datatype NewsDoc = NewsDoc(meta: map<string, Value>, fields: map<string, Value>)

  /** `retry(tries, delay, backoff)` as `push_to_index` uses it: no jitter,
      no maximum delay, every exception retried. */
  datatype RetryPolicy = RetryPolicy(tries: nat, delay: nat, backoff: nat)

  const PushPolicy := RetryPolicy(10, 1, 2)

  /** The outcome of a retried call: how many attempts were made, the
      delays slept between them, and what the caller sees. */
  datatype RetryRun = RetryRun(attempts: nat, sleeps: seq<nat>, outcome: Outcome)

  /** The retry loop from attempt `k` on, with `left` tries left and the
      current delay: a success returns at once, a failure on the last try is
      re-raised, any other failure sleeps and multiplies the delay. */
  function RetryFrom(k: nat, left: nat, delay: nat, backoff: nat, attempt: nat -> Outcome): (r: RetryRun)
    ensures r.attempts <= k + left
    ensures left > 0 ==> r.attempts > k && |r.sleeps| == r.attempts - k - 1
    ensures left == 0 ==> r == RetryRun(k, [], Pass)
    decreases left
  {
    if left == 0 then RetryRun(k, [], Pass)
    else
      match attempt(k)
      case Pass => RetryRun(k + 1, [], Pass)
      case Fail(e) =>
        if left == 1 then RetryRun(k + 1, [], Fail(e))
        else
          var rest := RetryFrom(k + 1, left - 1, delay * backoff, backoff, attempt);
          RetryRun(rest.attempts, [delay] + rest.sleeps, rest.outcome)
  }

  function RetrySpec(policy: RetryPolicy, attempt: nat -> Outcome): RetryRun {
    RetryFrom(0, policy.tries, policy.delay, policy.backoff, attempt)
  }

  function Pow(b: nat, e: nat): nat {
    if e == 0 then 1 else b * Pow(b, e - 1)
  }

  /** What the retry loop promises: it stops at the first success, never
      makes more than `tries` attempts, re-raises the last failure only once
      every try failed, and sleeps `delay * backoff^j` after the j-th failure. */
  lemma {:induction false} RetryFromMeaning(k: nat, left: nat, delay: nat, backoff: nat, attempt: nat -> Outcome)
    requires left > 0
    ensures var r := RetryFrom(k, left, delay, backoff, attempt);
      && (forall j :: k <= j < r.attempts - 1 ==> attempt(j).Fail?)
      && (r.outcome.Pass? <==> attempt(r.attempts - 1).Pass?)
      && (r.outcome.Fail? ==> r.attempts == k + left && r.outcome == attempt(r.attempts - 1))
      && (forall j :: 0 <= j < |r.sleeps| ==> r.sleeps[j] == delay * Pow(backoff, j))
    decreases left
  {
    match attempt(k)
    case Pass =>
    case Fail(e) =>
      if left > 1 {
        RetryFromMeaning(k + 1, left - 1, delay * backoff, backoff, attempt);
        var rest := RetryFrom(k + 1, left - 1, delay * backoff, backoff, attempt);
        var r := RetryFrom(k, left, delay, backoff, attempt);
        assert r.sleeps == [delay] + rest.sleeps;
        forall j | 0 <= j < |r.sleeps| ensures r.sleeps[j] == delay * Pow(backoff, j) {
          if j > 0 {
            assert r.sleeps[j] == rest.sleeps[j - 1] == delay * backoff * Pow(backoff, j - 1);
          }
        }
      }
  }

  /** `tries=0` never calls the function at all and returns None. */
  lemma ZeroTriesNeverCalls(delay: nat, backoff: nat, attempt: nat -> Outcome)
    ensures RetrySpec(RetryPolicy(0, delay, backoff), attempt) == RetryRun(0, [], Pass)
  {
  }

  /** The retry loop of the `retry` decorator. */
  method Retry(policy: RetryPolicy, attempt: nat -> Outcome) returns (run: RetryRun)
    ensures run == RetrySpec(policy, attempt)
  {
    var tries := policy.tries;
    var delay: nat := policy.delay;
    var k: nat := 0;
    var sleeps: seq<nat> := [];
    while tries > 0
      invariant k + tries == policy.tries
      invariant RetrySpec(policy, attempt) ==
        (var rest := RetryFrom(k, tries, delay, policy.backoff, attempt);
         RetryRun(rest.attempts, sleeps + rest.sleeps, rest.outcome))
      decreases tries
    {
      var outcome := attempt(k);
      if outcome.Pass? {
        assert sleeps + [] == sleeps;
        return RetryRun(k + 1, sleeps, Pass);
      }
      tries := tries - 1;
      if tries == 0 {
        assert sleeps + [] == sleeps;
        return RetryRun(k + 1, sleeps, outcome);
      }
      var rest := RetryFrom(k + 1, tries, delay * policy.backoff, policy.backoff, attempt);
      assert sleeps + ([delay] + rest.sleeps) == (sleeps + [delay]) + rest.sleeps;
      sleeps := sleeps + [delay];
      delay := delay * policy.backoff;
      k := k + 1;
    }
    assert sleeps + [] == sleeps;
    run := RetryRun(k, sleeps, Pass);
  }

  /** `push_to_index`: the document is exactly the meta data and the index
      data, and it is saved under the policy `tries=10, delay=1, backoff=2`. */
  method PushToIndex(uid: Value, names: IndexFieldNames, lookup: Option<string> -> Value,
                     save: (NewsDoc, nat) -> Outcome)
    returns (doc: NewsDoc, run: RetryRun)
    ensures doc == NewsDoc(GetIndexMetaData(uid), GetIndexData(names, lookup))
    ensures run == RetrySpec(PushPolicy, (k: nat) => save(doc, k))
  {
    doc := NewsDoc(GetIndexMetaData(uid), GetIndexData(names, lookup));
    run := Retry(PushPolicy, (k: nat) => save(doc, k));
  }

  /** Under the push policy at most ten saves are tried, the waits are
      1, 2, 4, ... seconds, and a failure reaches the caller only after ten
      failed saves. */
  lemma PushPolicyBounds(attempt: nat -> Outcome)
    ensures var r := RetrySpec(PushPolicy, attempt);
      && 1 <= r.attempts <= 10
      && (forall j :: 0 <= j < |r.sleeps| ==> r.sleeps[j] == Pow(2, j))
      && (r.outcome.Fail? ==> r.attempts == 10 && forall j :: 0 <= j < 10 ==> attempt(j).Fail?)
      && (forall j :: 0 <= j < r.attempts - 1 ==> attempt(j).Fail?)
  {
    RetryFromMeaning(0, 10, 1, 2, attempt);
  }
}
