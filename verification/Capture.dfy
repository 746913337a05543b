/** Capturing a bounded part of a program's output while draining the rest. */
module Capture {
  import opened Sequences

  type Byte = bv8

  const MAX_STREAM_BYTES := 65536

  /** What one read gives: some bytes, the end, or an error. A read never gives more than its buffer. */
  datatype Read = Bytes(chunk: seq<Byte>) | ReadError

  /** Everything that arrived before the first empty read or error. */
  function Arrived(results: seq<Read>): (r: seq<Byte>)
  {
    if results == [] || results[0].ReadError? || results[0].chunk == [] then []
    else results[0].chunk + Arrived(results[1..])
  }

  /** The part that is kept of what has arrived. */
  function Head(arrived: seq<Byte>): (r: seq<Byte>)
  {
    arrived[..Min(|arrived|, MAX_STREAM_BYTES)]
  }

  lemma KeepOneChunk(before: seq<Byte>, chunk: seq<Byte>)
    ensures var room := MAX_STREAM_BYTES - |Head(before)|;
            && Head(before) + chunk[..Min(|chunk|, room)] == Head(before + chunk)
            && (|before + chunk| > MAX_STREAM_BYTES <==> |before| > MAX_STREAM_BYTES || |chunk| > room)
  {
  }

  lemma TakeOneChunk(results: seq<Read>, n: nat)
    requires n < |results| && results[n].Bytes? && results[n].chunk != []
    ensures Arrived(results[n..]) == results[n].chunk + Arrived(results[n + 1..])
  {
    assert results[n..][1..] == results[n + 1..];
  }

  /** However the stream is chunked, the first bytes are kept, and a cut is reported exactly when more arrived. */
  method ReadBounded(results: seq<Read>) returns (kept: seq<Byte>, cut: bool)
    ensures kept == Taken(Arrived(results), 65536)
    ensures cut <==> |Arrived(results)| > 65536
  {
    kept := [];
    cut := false;
    ghost var before: seq<Byte> := [];
    ghost var all := Arrived(results);
    ghost var left := all;
    var n := 0;
    assert results[0..] == results;
    while n < |results|
      invariant 0 <= n <= |results|
      invariant left == Arrived(results[n..]) && before + left == all
      invariant kept == Head(before)
      invariant cut <==> |before| > MAX_STREAM_BYTES
    {
      if results[n].ReadError? || results[n].chunk == [] {
        return;
      }
      var chunk := results[n].chunk;
      var room := MAX_STREAM_BYTES - |kept|;
      if |chunk| > room {
        cut := true;
      }
      KeepOneChunk(before, chunk);
      TakeOneChunk(results, n);
      kept := kept + chunk[..Min(|chunk|, room)];
      left := Arrived(results[n + 1..]);
      assert before + (chunk + left) == all;
      before := before + chunk;
      n := n + 1;
    }
  }

  lemma {:induction false} ArrivedJoin(first: seq<Read>, second: seq<Read>)
    requires forall i | 0 <= i < |first| :: first[i].Bytes? && first[i].chunk != []
    ensures Arrived(first + second) == Arrived(first) + Arrived(second)
  {
    if first == [] {
      assert first + second == second;
    } else {
      assert (first + second)[1..] == first[1..] + second;
      ArrivedJoin(first[1..], second);
    }
  }

  /** Splitting a read in two changes nothing that is captured. */
  lemma ChunkingDoesNotMatter(front: seq<Read>, a: seq<Byte>, b: seq<Byte>, rest: seq<Read>)
    requires forall i | 0 <= i < |front| :: front[i].Bytes? && front[i].chunk != []
    requires a != [] && b != []
    ensures Arrived(front + [Bytes(a + b)] + rest) == Arrived(front + [Bytes(a), Bytes(b)] + rest)
  {
    assert front + [Bytes(a + b)] + rest == front + ([Bytes(a + b)] + rest);
    assert front + [Bytes(a), Bytes(b)] + rest == front + ([Bytes(a)] + ([Bytes(b)] + rest));
    ArrivedJoin(front, [Bytes(a + b)] + rest);
    ArrivedJoin(front, [Bytes(a)] + ([Bytes(b)] + rest));
    assert ([Bytes(a + b)] + rest)[1..] == rest;
    assert ([Bytes(a)] + ([Bytes(b)] + rest))[1..] == [Bytes(b)] + rest;
    assert ([Bytes(b)] + rest)[1..] == rest;
    assert (a + b) + Arrived(rest) == a + (b + Arrived(rest));
  }
}
