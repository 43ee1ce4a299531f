/** mnemonic/news/utils/iter_utils.py: `chunkify`, which cuts one shared
    iterator into consecutive `islice` chunks. The model consumes every chunk
    fully before asking for the next, as every caller does. */
module IterUtils {
  import opened Wrappers
  import opened Arith

  /** What `islice` raises for a negative stop. */
  const IsliceError := Error("ValueError", "Stop argument for islice() must be None or an integer: 0 <= x <= sys.maxsize.")

  /** The chunks `chunkify(s, n)` yields: the next `n` elements while any
      remain; a stop of 0 makes the first `next` fail, so nothing at all. */
  function Chunks<T>(s: seq<T>, n: nat): (r: seq<seq<T>>)
    ensures forall i :: 0 <= i < |r| ==> 0 < |r[i]| <= n
    ensures forall i :: 0 <= i < |r| - 1 ==> |r[i]| == n
    ensures n == 0 || s == [] ==> r == []
    decreases |s|
  {
    if n == 0 || s == [] then []
    else if |s| <= n then [s]
    else [s[..n]] + Chunks(s[n..], n)
  }

  /** The elements of the chunks, one chunk after the other. */
  function Flatten<T>(chunks: seq<seq<T>>): seq<T> {
    if chunks == [] then [] else chunks[0] + Flatten(chunks[1..])
  }

  /** Consumed in order, the chunks give back the input exactly. */
  lemma {:induction false} FlattenChunks<T>(s: seq<T>, n: nat)
    requires n > 0
    ensures Flatten(Chunks(s, n)) == s
    decreases |s|
  {
    if s != [] && |s| > n {
      var c := Chunks(s, n);
      assert c[1..] == Chunks(s[n..], n);
      FlattenChunks(s[n..], n);
      assert s[..n] + s[n..] == s;
    } else if s != [] {
      assert Flatten([s]) == s + Flatten([]);
    }
  }

  /** There are ceil(|s| / n) chunks. */
  lemma {:induction false} ChunkCount<T>(s: seq<T>, n: nat)
    requires n > 0
    ensures |Chunks(s, n)| == (|s| + n - 1) / n
    decreases |s|
  {
    if s == [] {
      DivByParts(n - 1, n, 0, n - 1);
    } else if |s| <= n {
      DivByParts(|s| + n - 1, n, 1, |s| - 1);
    } else {
      ChunkCount(s[n..], n);
      var m := |s| - n + n - 1;
      var q := m / n;
      assert m == q * n + m % n;
      DivByParts(m + n, n, q + 1, m % n);
    }
  }

  /** One round of the `while True` loop on what is left of the iterator. */
  lemma ChunksStep<T>(s: seq<T>, n: nat, k: nat)
    requires n > 0 && s != [] && k == (if |s| <= n then |s| else n)
    ensures Chunks(s, n) == [s[..k]] + Chunks(s[k..], n)
  {
    if |s| <= n {
      assert s[..k] == s;
      assert s[k..] == [];
    }
  }

  /** One chunk drained by its consumer: `chunk_it = islice(it, chunksize)`,
      its first element taken by `next` and chained back in front of the
      rest of `chunk_it`; that is the next `chunksize` elements from
      `start`, or all that remain. */
  method NextChunk<T>(items: seq<T>, start: nat, chunksize: nat) returns (chunk: seq<T>, pos: nat)
    requires start < |items| && chunksize > 0
    ensures pos == start + (if |items| - start <= chunksize then |items| - start else chunksize)
    ensures chunk == items[start..pos]
  {
    chunk := [items[start]];
    pos := start + 1;
    while pos < |items| && |chunk| < chunksize
      invariant start < pos <= |items|
      invariant chunk == items[start..pos]
      invariant |chunk| == pos - start <= chunksize
    {
      chunk := chunk + [items[pos]];
      pos := pos + 1;
    }
  }

  /** `chunkify(items, chunksize)`, every chunk drained before the next. A
      negative stop makes `islice` raise before anything is yielded. */
  method Chunkify<T>(items: seq<T>, chunksize: int) returns (r: Result<seq<seq<T>>>)
    ensures chunksize < 0 ==> r == Failure(IsliceError)
    ensures chunksize >= 0 ==> r == Success(Chunks(items, chunksize))
  {
    if chunksize < 0 {
      return Failure(IsliceError);
    }
    var chunks: seq<seq<T>> := [];
    var pos := 0;
    assert items[0..] == items;
    while true
      invariant 0 <= pos <= |items|
      invariant chunks + Chunks(items[pos..], chunksize) == Chunks(items, chunksize)
      decreases |items| - pos
    {
      if chunksize == 0 || pos == |items| {
        assert chunks + [] == chunks;
        return Success(chunks);
      }
      var start := pos;
      var chunk;
      chunk, pos := NextChunk(items, start, chunksize);
      var rest := items[start..];
      ChunksStep(rest, chunksize, |chunk|);
      assert rest[..|chunk|] == chunk;
      assert rest[|chunk|..] == items[pos..];
      assert (chunks + [chunk]) + Chunks(items[pos..], chunksize) == chunks + ([chunk] + Chunks(items[pos..], chunksize));
      chunks := chunks + [chunk];
    }
  }
}
