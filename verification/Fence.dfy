/**
 Cutting untrusted text into pieces that each fit a fence. A refused slice is retried shorter until it is short enough
 to give up on; of an accepted slice the fence keeps a body. The cutting is stated for every fence, and what is lost for
 the daemon's own isolation.
 */
module Fence {
  import opened Options
  import opened Isolation
  import opened Sequences
  import Text

  const FENCE_PIECE_CHARS := 3500
  const SHORT_CHARS := 200

  /** What a fence keeps of a slice, or nothing when it refuses the slice. */
  type Fencing = string -> Option<string>

  /** What happened to one stretch of the text. */
  datatype Cut = Kept(text: string, body: string) | Skipped(text: string)

  /** The next length to try after a refusal. */
  function Shorter(length: nat): (r: nat)
    requires length > SHORT_CHARS
    ensures 0 < r < length && 4 * r <= 3 * length < 4 * (r + 1)
  {
    length * 3 / 4
  }

  /** The cuts of what is left of a chunk of `size` characters, trying `length` characters first. */
  function CutsFrom(rest: string, size: nat, length: nat, fence: Fencing): (cuts: seq<Cut>)
    requires length > 0 && size > 0
    decreases |rest|, length
  {
    if rest == [] then []
    else
      var slice := Taken(rest, length);
      match fence(slice)
      case Some(body) => [Kept(slice, body)] + CutsFrom(rest[|slice|..], size, size, fence)
      case None =>
        if length > SHORT_CHARS then CutsFrom(rest, size, Shorter(length), fence)
        else [Skipped(slice)] + CutsFrom(rest[|slice|..], size, length, fence)
  }

  /** The cuts of one chunk; chunks of a text are never empty. */
  function ChunkCuts(part: string, fence: Fencing): (cuts: seq<Cut>)
    requires part != []
  {
    CutsFrom(part, |part|, |part|, fence)
  }

  function Cuts(text: string, fence: Fencing): (cuts: seq<Cut>)
  {
    if text == [] then []
    else
      var n := Min(FENCE_PIECE_CHARS, |text|);
      ChunkCuts(text[..n], fence) + Cuts(text[n..], fence)
  }

  function Whole(cuts: seq<Cut>): (r: string)
  {
    if cuts == [] then [] else cuts[0].text + Whole(cuts[1..])
  }

  function Bodies(cuts: seq<Cut>): (r: seq<string>)
  {
    if cuts == [] then [] else (if cuts[0].Kept? then [cuts[0].body] else []) + Bodies(cuts[1..])
  }

  lemma {:induction false} BodiesJoin(a: seq<Cut>, b: seq<Cut>)
    ensures Bodies(a + b) == Bodies(a) + Bodies(b)
    ensures Whole(a + b) == Whole(a) + Whole(b)
  {
    if a == [] {
      assert a + b == b;
    } else {
      var first := if a[0].Kept? then [a[0].body] else [];
      assert (a + b)[0] == a[0] && (a + b)[1..] == a[1..] + b;
      BodiesJoin(a[1..], b);
      assert first + (Bodies(a[1..]) + Bodies(b)) == (first + Bodies(a[1..])) + Bodies(b);
      assert a[0].text + (Whole(a[1..]) + Whole(b)) == (a[0].text + Whole(a[1..])) + Whole(b);
    }
  }

  lemma BodiesCons(cut: Cut, rest: seq<Cut>)
    ensures Bodies([cut] + rest) == (if cut.Kept? then [cut.body] else []) + Bodies(rest)
  {
    assert ([cut] + rest)[1..] == rest;
  }

  lemma SliceKept(rest: string, size: nat, length: nat, fence: Fencing, body: string)
    requires rest != [] && length > 0 && size > 0 && fence(Taken(rest, length)) == Some(body)
    ensures CutsFrom(rest, size, length, fence)
            == [Kept(Taken(rest, length), body)] + CutsFrom(rest[Min(|rest|, length)..], size, size, fence)
  {
  }

  lemma SliceSkipped(rest: string, size: nat, length: nat, fence: Fencing)
    requires rest != [] && 0 < length <= SHORT_CHARS && size > 0 && fence(Taken(rest, length)).None?
    ensures CutsFrom(rest, size, length, fence)
            == [Skipped(Taken(rest, length))] + CutsFrom(rest[Min(|rest|, length)..], size, length, fence)
  {
  }

  lemma SkippedBodies(rest: string, next: string, size: nat, length: nat, fence: Fencing)
    requires rest != [] && 0 < length <= SHORT_CHARS && size > 0 && fence(Taken(rest, length)).None?
    requires next == rest[Min(|rest|, length)..]
    ensures Bodies(CutsFrom(rest, size, length, fence)) == Bodies(CutsFrom(next, size, length, fence))
  {
    SliceSkipped(rest, size, length, fence);
    BodiesCons(Skipped(Taken(rest, length)), CutsFrom(next, size, length, fence));
  }

  /** What is left of a chunk from `start` on, which may lie behind its end. */
  function Rest(part: string, start: nat): (r: string)
  {
    if start < |part| then part[start..] else []
  }

  lemma SliceOfRest(part: string, start: nat, length: nat)
    requires start < |part|
    ensures part[start..Min(start + length, |part|)] == Taken(Rest(part, start), length)
    ensures Rest(part, start + length) == Rest(part, start)[Min(|part| - start, length)..]
  {
  }

  /** The pieces so far and the pieces still to come are those of the chunk. */
  ghost predicate UnderWay(part: string, start: nat, length: nat, fence: Fencing, pieces: seq<string>)
  {
    && part != [] && length > 0
    && pieces + Bodies(CutsFrom(Rest(part, start), |part|, length, fence)) == Bodies(ChunkCuts(part, fence))
  }

  lemma BeginsChunk(part: string, fence: Fencing)
    requires part != []
    ensures UnderWay(part, 0, |part|, fence, [])
  {
    assert Rest(part, 0) == part;
  }

  lemma TakesPiece(part: string, start: nat, length: nat, fence: Fencing, pieces: seq<string>, body: string)
    requires UnderWay(part, start, length, fence, pieces) && start < |part|
    requires fence(part[start..Min(start + length, |part|)]) == Some(body)
    ensures UnderWay(part, start + length, |part|, fence, pieces + [body])
  {
    SliceOfRest(part, start, length);
    var left := Rest(part, start);
    var cuts := CutsFrom(Rest(part, start + length), |part|, |part|, fence);
    SliceKept(left, |part|, length, fence, body);
    BodiesCons(Kept(Taken(left, length), body), cuts);
    assert pieces + ([body] + Bodies(cuts)) == (pieces + [body]) + Bodies(cuts);
  }

  lemma TriesShorter(part: string, start: nat, length: nat, fence: Fencing, pieces: seq<string>)
    requires UnderWay(part, start, length, fence, pieces) && start < |part| && length > SHORT_CHARS
    requires fence(part[start..Min(start + length, |part|)]).None?
    ensures UnderWay(part, start, Shorter(length), fence, pieces)
  {
    SliceOfRest(part, start, length);
  }

  lemma SkipsSlice(part: string, start: nat, length: nat, fence: Fencing, pieces: seq<string>)
    requires UnderWay(part, start, length, fence, pieces) && start < |part| && length <= SHORT_CHARS
    requires fence(part[start..Min(start + length, |part|)]).None?
    ensures UnderWay(part, start + length, length, fence, pieces)
  {
    SliceOfRest(part, start, length);
    SkippedBodies(Rest(part, start), Rest(part, start + length), |part|, length, fence);
  }

  lemma EndsChunk(part: string, start: nat, length: nat, fence: Fencing, pieces: seq<string>)
    requires UnderWay(part, start, length, fence, pieces) && start >= |part|
    ensures pieces == Bodies(ChunkCuts(part, fence))
  {
    assert CutsFrom([], |part|, length, fence) == [];
  }

  /** The loop over one chunk. A piece is the body between the two fixed markers, which are not modelled. */
  method ChunkPieces(part: string, fence: Fencing) returns (pieces: seq<string>)
    requires part != []
    ensures pieces == Bodies(ChunkCuts(part, fence))
  {
    pieces := [];
    var length := |part|;
    var start := 0;
    BeginsChunk(part, fence);
    while start < |part|
      invariant length > 0 && UnderWay(part, start, length, fence, pieces)
      decreases |part| - start, length
    {
      var answer := fence(part[start..Min(start + length, |part|)]);
      if answer.Some? {
        TakesPiece(part, start, length, fence, pieces, answer.value);
        pieces := pieces + [answer.value];
        start := start + length;
        length := |part|;
      } else if length > 200 {
        TriesShorter(part, start, length, fence, pieces);
        length := length * 3 / 4;
      } else {
        SkipsSlice(part, start, length, fence, pieces);
        start := start + length;
      }
    }
    EndsChunk(part, start, length, fence, pieces);
  }

  /** Taking off the first chunk of what is left. */
  lemma NextChunk(rest: string, fence: Fencing)
    requires rest != []
    ensures var n := Min(FENCE_PIECE_CHARS, |rest|);
            n > 0 && Bodies(Cuts(rest, fence)) == Bodies(ChunkCuts(rest[..n], fence)) + Bodies(Cuts(rest[n..], fence))
  {
    var n := Min(FENCE_PIECE_CHARS, |rest|);
    BodiesJoin(ChunkCuts(rest[..n], fence), Cuts(rest[n..], fence));
  }

  /** Splits text into chunks and each chunk into accepted pieces. */
  method FencedPieces(text: string, fence: Fencing) returns (pieces: seq<string>)
    ensures pieces == Bodies(Cuts(text, fence))
  {
    pieces := [];
    var rest := text;
    ghost var all := Bodies(Cuts(text, fence));
    ghost var todo := all;
    while rest != []
      invariant todo == Bodies(Cuts(rest, fence))
      invariant pieces + todo == all
      decreases |rest|
    {
      var n := Min(3500, |rest|);
      NextChunk(rest, fence);
      var chunk := ChunkPieces(rest[..n], fence);
      assert pieces + (chunk + todo[|chunk|..]) == all;
      todo := todo[|chunk|..];
      pieces := pieces + chunk;
      rest := rest[n..];
    }
  }

  // ----- conservation of slices ---------------------------------------------------------------------------

  /** A slice is skipped only when the fence refused it and it is short; it is kept only when accepted. */
  predicate CutOk(cut: Cut, fence: Fencing)
  {
    && 0 < |cut.text| <= 3500
    && match cut
       case Kept(text, body) => fence(text) == Some(body)
       case Skipped(text) => fence(text).None? && |text| <= 200
  }

  predicate AllCutsOk(cuts: seq<Cut>, fence: Fencing)
  {
    forall i | 0 <= i < |cuts| :: CutOk(cuts[i], fence)
  }

  /** What `cuts` must satisfy to account for a stretch of text. */
  predicate Accounts(cuts: seq<Cut>, rest: string, fence: Fencing)
  {
    Whole(cuts) == rest && AllCutsOk(cuts, fence)
  }

  lemma OneMoreCut(cut: Cut, cuts: seq<Cut>, rest: string, fence: Fencing)
    requires |cut.text| <= |rest| && cut.text == rest[..|cut.text|] && CutOk(cut, fence)
    requires Accounts(cuts, rest[|cut.text|..], fence)
    ensures Accounts([cut] + cuts, rest, fence)
  {
    assert ([cut] + cuts)[1..] == cuts;
    assert rest == rest[..|cut.text|] + rest[|cut.text|..];
  }

  lemma {:induction false} ChunkConserved(rest: string, size: nat, length: nat, fence: Fencing)
    requires length > 0 && size > 0 && |rest| <= FENCE_PIECE_CHARS
    ensures Accounts(CutsFrom(rest, size, length, fence), rest, fence)
    decreases |rest|, length
  {
    if rest != [] {
      var slice := Taken(rest, length);
      var answer := fence(slice);
      if answer.Some? {
        SliceKept(rest, size, length, fence, answer.value);
        ChunkConserved(rest[|slice|..], size, size, fence);
        OneMoreCut(Kept(slice, answer.value), CutsFrom(rest[|slice|..], size, size, fence), rest, fence);
      } else if length > SHORT_CHARS {
        ChunkConserved(rest, size, Shorter(length), fence);
      } else {
        SliceSkipped(rest, size, length, fence);
        ChunkConserved(rest[|slice|..], size, length, fence);
        OneMoreCut(Skipped(slice), CutsFrom(rest[|slice|..], size, length, fence), rest, fence);
      }
    }
  }

  /** For every fence: kept and skipped slices, in order, are the input, and every skip was refused and short. */
  lemma {:induction false} TextConserved(text: string, fence: Fencing)
    ensures Whole(Cuts(text, fence)) == text
    ensures AllCutsOk(Cuts(text, fence), fence)
  {
    if text != [] {
      var n := Min(FENCE_PIECE_CHARS, |text|);
      ChunkConserved(text[..n], n, n, fence);
      TextConserved(text[n..], fence);
      BodiesJoin(ChunkCuts(text[..n], fence), Cuts(text[n..], fence));
      assert text == text[..n] + text[n..];
    }
  }

  // ----- what the pieces keep -----------------------------------------------------------------------------

  lemma ConcatenatedBodies(cuts: seq<Cut>)
    requires cuts != []
    ensures Concatenated(Bodies(cuts))
            == (if cuts[0].Kept? then cuts[0].body else []) + Concatenated(Bodies(cuts[1..]))
  {
    var rest := Bodies(cuts[1..]);
    if cuts[0].Kept? {
      assert Bodies(cuts) == [cuts[0].body] + rest && Bodies(cuts)[1..] == rest;
    } else {
      assert Bodies(cuts) == rest;
    }
  }

  /** The slice went through whole. */
  predicate Untouched(cut: Cut)
  {
    cut.Kept? && cut.body == cut.text
  }

  predicate AllUntouched(cuts: seq<Cut>)
  {
    forall i | 0 <= i < |cuts| :: Untouched(cuts[i])
  }

  lemma SameSplit(a: string, b: string, c: string, d: string)
    requires |a| <= |c| && |b| <= |d|
    ensures a + b == c + d <==> a == c && b == d
  {
    if a + b == c + d {
      assert |a| == |c| && |b| == |d|;
      assert a == (a + b)[..|a|] && c == (c + d)[..|c|];
      assert b == (a + b)[|a|..] && d == (c + d)[|c|..];
    }
  }

  lemma {:induction false} BodiesMatch(cuts: seq<Cut>)
    requires forall i | 0 <= i < |cuts| :: cuts[i].text != []
    requires forall i | 0 <= i < |cuts| && cuts[i].Kept? :: |cuts[i].body| <= |cuts[i].text|
    ensures |Concatenated(Bodies(cuts))| <= |Whole(cuts)|
    ensures Concatenated(Bodies(cuts)) == Whole(cuts) <==> AllUntouched(cuts)
  {
    if cuts != [] {
      var rest := cuts[1..];
      BodiesMatch(rest);
      ConcatenatedBodies(cuts);
      var head := if cuts[0].Kept? then cuts[0].body else [];
      SameSplit(head, Concatenated(Bodies(rest)), cuts[0].text, Whole(rest));
      assert AllUntouched(cuts) <==> Untouched(cuts[0]) && AllUntouched(rest) by {
        assert forall i | 1 <= i < |cuts| :: cuts[i] == rest[i - 1];
        assert forall i | 0 <= i < |rest| :: rest[i] == cuts[i + 1];
      }
    }
  }

  function Isolating(token: Token): (fence: Fencing)
  {
    (s: string) => Isolated(s, token)
  }

  function IsolatedPieces(text: string, token: Token): (pieces: seq<string>)
  {
    Bodies(Cuts(text, Isolating(token)))
  }

  /** Every slice that the cutting settled on is accepted and clean. */
  ghost predicate SlicesClean(text: string, token: Token)
  {
    var cuts := Cuts(text, Isolating(token));
    forall i | 0 <= i < |cuts| :: cuts[i].Kept? && Clean(cuts[i].text, token)
  }

  /** The pieces hold the whole text if and only if no slice was skipped and isolation changes none of the slices. */
  lemma LostExactlyWhenUnclean(text: string, token: Token)
    ensures Concatenated(IsolatedPieces(text, token)) == text <==> SlicesClean(text, token)
  {
    var cuts := Cuts(text, Isolating(token));
    TextConserved(text, Isolating(token));
    forall i | 0 <= i < |cuts| && cuts[i].Kept?
      ensures |cuts[i].body| <= |cuts[i].text| && (Untouched(cuts[i]) <==> Clean(cuts[i].text, token))
    {
      NeverLonger(cuts[i].text, token);
      UnchangedExactlyWhenClean(cuts[i].text, token);
    }
    BodiesMatch(cuts);
  }

  // ----- a condition on the text --------------------------------------------------------------------------

  /** The fence accepts every chunk of the text as it stands. */
  predicate ChunksAccepted(text: string, token: Token)
  {
    text != [] ==>
      var n := Min(3500, |text|);
      Isolated(text[..n], token).Some? && ChunksAccepted(text[n..], token)
  }

  /** Every chunk of the text is clean as it stands. */
  predicate ChunksClean(text: string, token: Token)
  {
    text != [] ==>
      var n := Min(3500, |text|);
      Clean(text[..n], token) && ChunksClean(text[n..], token)
  }

  lemma AcceptedChunkIsOneCut(chunk: string, body: string, token: Token)
    requires chunk != [] && Isolated(chunk, token) == Some(body)
    ensures ChunkCuts(chunk, Isolating(token)) == [Kept(chunk, body)]
  {
    SliceKept(chunk, |chunk|, |chunk|, Isolating(token), body);
    assert CutsFrom(chunk[|chunk|..], |chunk|, |chunk|, Isolating(token)) == [];
  }

  /** The pieces of a text whose first chunk is accepted. */
  lemma AcceptedChunkFirst(text: string, n: nat, body: string, token: Token)
    requires text != [] && n == Min(FENCE_PIECE_CHARS, |text|) && Isolated(text[..n], token) == Some(body)
    ensures Concatenated(IsolatedPieces(text, token)) == body + Concatenated(IsolatedPieces(text[n..], token))
  {
    AcceptedChunkIsOneCut(text[..n], body, token);
    var cuts := Cuts(text, Isolating(token));
    assert cuts == [Kept(text[..n], body)] + Cuts(text[n..], Isolating(token));
    assert cuts[1..] == Cuts(text[n..], Isolating(token));
    ConcatenatedBodies(cuts);
  }

  /**
   When every chunk is accepted as it stands, the pieces hold the whole text if and only if every chunk is clean. Both
   can be seen in the text before it is cut.
   */
  lemma {:induction false} AcceptedKeptExactlyWhenClean(text: string, token: Token)
    requires ChunksAccepted(text, token)
    ensures Concatenated(IsolatedPieces(text, token)) == text <==> ChunksClean(text, token)
    ensures |Concatenated(IsolatedPieces(text, token))| <= |text|
    decreases |text|
  {
    if text != [] {
      var n := Min(FENCE_PIECE_CHARS, |text|);
      var chunk, rest := text[..n], text[n..];
      var body := Isolated(chunk, token).value;
      AcceptedChunkFirst(text, n, body, token);
      AcceptedKeptExactlyWhenClean(rest, token);
      NeverLonger(chunk, token);
      UnchangedExactlyWhenClean(chunk, token);
      assert text == chunk + rest;
      SameSplit(body, Concatenated(IsolatedPieces(rest, token)), chunk, rest);
    }
  }

  lemma {:induction false} CleanIsAccepted(text: string, token: Token)
    requires ChunksClean(text, token)
    ensures ChunksAccepted(text, token)
    decreases |text|
  {
    if text != [] {
      var n := Min(FENCE_PIECE_CHARS, |text|);
      UnchangedExactlyWhenClean(text[..n], token);
      CleanIsAccepted(text[n..], token);
    }
  }

  /** When every chunk is clean nothing is lost. */
  lemma NothingLost(text: string, token: Token)
    requires ChunksClean(text, token)
    ensures Concatenated(IsolatedPieces(text, token)) == text
  {
    CleanIsAccepted(text, token);
    AcceptedKeptExactlyWhenClean(text, token);
  }

  /** Text is lost although no slice is refused: white space behind a clean short text. */
  lemma AcceptedTextIsCut(text: string, blanks: string, token: Token)
    requires Clean(text, token) && Text.AllWhite(blanks) && forall i | 0 <= i < |blanks| :: Stays(blanks[i])
    requires blanks != [] && |text + blanks| <= FENCE_PIECE_CHARS
    ensures ChunksAccepted(text + blanks, token)
    ensures IsolatedPieces(text + blanks, token) == [text]
    ensures Concatenated(IsolatedPieces(text + blanks, token)) != text + blanks
  {
    var whole := text + blanks;
    TrailingSpaceIsLost(text, blanks, token);
    assert whole[..|whole|] == whole && whole[|whole|..] == [];
    AcceptedChunkIsOneCut(whole, text, token);
    assert Cuts(whole, Isolating(token)) == [Kept(whole, text)] + Cuts([], Isolating(token));
    BodiesCons(Kept(whole, text), []);
    assert [text][1..] == [];
  }

  // ----- what is seen survives ----------------------------------------------------------------------------

  lemma {:induction false} SeenInCuts(cuts: seq<Cut>, token: Token)
    requires AllCutsOk(cuts, Isolating(token)) && TokenFree(Whole(cuts), token)
    ensures Filter(Concatenated(Bodies(cuts)), Seen) == Filter(Whole(cuts), Seen)
  {
    if cuts != [] {
      var first, rest := cuts[0].text, Whole(cuts[1..]);
      assert CutOk(cuts[0], Isolating(token));
      assert [] + first + rest == first + rest == first + rest + [];
      TokenFreeInside([], first, rest, token);
      TokenFreeInside(first, rest, [], token);
      SeenInCuts(cuts[1..], token);
      NothingSeenIsLost(first, token);
      FilterJoin(first, rest, Seen);
      ConcatenatedBodies(cuts);
      FilterJoin(if cuts[0].Kept? then cuts[0].body else [], Concatenated(Bodies(cuts[1..])), Seen);
    }
  }

  /** A text without the token loses only white space and dropped characters: all that is seen is in the pieces. */
  lemma SeenTextSurvives(text: string, token: Token)
    requires TokenFree(text, token)
    ensures Filter(Concatenated(IsolatedPieces(text, token)), Seen) == Filter(text, Seen)
  {
    TextConserved(text, Isolating(token));
    SeenInCuts(Cuts(text, Isolating(token)), token);
  }
}
