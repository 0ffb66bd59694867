/** Bounded slices of a piece of evidence's canonical JSON text. */
module Chunking {
  import opened Common

  const MAX_CHUNK_CHARS: int := 8000
  const MAX_CHUNKS: int := 4
  const MAX_TOTAL_CHARS: int := 32000

  datatype Limits = Limits(chunkChars: int, maxChunks: int, maxTotalChars: int)

  datatype Chunk = Chunk(reference: Id, index: nat, count: nat, content: string, truncated: bool)

  /** The tests of `_validate_limits`; any failure is a `ValueError`. */
  predicate LimitsValid(l: Limits) {
    && 0 < l.chunkChars <= MAX_CHUNK_CHARS
    && 0 < l.maxChunks <= MAX_CHUNKS
    && 0 < l.maxTotalChars <= MAX_TOTAL_CHARS
    && l.maxTotalChars <= l.chunkChars * l.maxChunks
  }

  function Bounded(text: string, limit: nat): string {
    text[..Min(limit, |text|)]
  }

  /** Python's `text[from:to]` on a non-negative range. */
  function Slice(text: string, from: nat, to: nat): string
    requires from <= to
  {
    text[Min(from, |text|)..Min(to, |text|)]
  }

  function ChunkCount(length: nat, chunkChars: int): nat
    requires chunkChars > 0
  {
    (length + chunkChars - 1) / chunkChars
  }

  function ChunkAt(reference: Id, text: string, l: Limits, index: nat): Chunk
    requires LimitsValid(l)
  {
    var bounded := Bounded(text, l.maxTotalChars);
    StartsInOrder(index, l.chunkChars);
    Chunk(reference, index, ChunkCount(|bounded|, l.chunkChars),
          Slice(bounded, index * l.chunkChars, (index + 1) * l.chunkChars), |text| > l.maxTotalChars)
  }

  lemma StartsInOrder(index: nat, size: int)
    requires size > 0
    ensures 0 <= index * size <= (index + 1) * size == index * size + size
  {
  }

  /** `build_evidence_chunks` on canonical text; `None` is the `ValueError` of bad limits. */
  function BuildChunks(reference: Id, text: string, l: Limits): Option<seq<Chunk>> {
    if !LimitsValid(l) then None
    else
      var n := ChunkCount(|Bounded(text, l.maxTotalChars)|, l.chunkChars);
      Some(seq(n, i requires 0 <= i < n => ChunkAt(reference, text, l, i)))
  }

  function Concat(chunks: seq<Chunk>): string {
    if chunks == [] then "" else Concat(chunks[..|chunks| - 1]) + chunks[|chunks| - 1].content
  }

  lemma CeilBounds(length: nat, size: int, limit: nat, most: int)
    requires 0 < size && length <= limit && limit <= size * most
    ensures var n := ChunkCount(length, size);
            && n <= most && length <= n * size
            && (n > 0 ==> (n - 1) * size < length) && (n == 0 <==> length == 0)
  {
    var n := ChunkCount(length, size);
    assert n * size <= length + size - 1 < n * size + size;
    assert n > most ==> (most + 1) * size <= n * size;
    if n > 0 {
      assert (n - 1) * size == n * size - size;
    }
  }

  /** The first `k` slices are the first `k * size` characters. */
  lemma {:induction false} PrefixIsText(reference: Id, text: string, l: Limits, chunks: seq<Chunk>, k: nat)
    requires LimitsValid(l) && BuildChunks(reference, text, l) == Some(chunks) && k <= |chunks|
    ensures Concat(chunks[..k]) == Slice(Bounded(text, l.maxTotalChars), 0, k * l.chunkChars)
  {
    var bounded := Bounded(text, l.maxTotalChars);
    if k == 0 {
      assert chunks[..0] == [];
    } else {
      PrefixIsText(reference, text, l, chunks, k - 1);
      assert chunks[..k][..k - 1] == chunks[..k - 1];
      StartsInOrder(k - 1, l.chunkChars);
      var a, b := (k - 1) * l.chunkChars, k * l.chunkChars;
      assert chunks[k - 1].content == Slice(bounded, a, b);
      assert Slice(bounded, 0, a) + Slice(bounded, a, b) == Slice(bounded, 0, b);
    }
  }

  /** Every slice but the last is full, and the last is not empty. */
  lemma SliceLength(bounded: string, i: nat, n: nat, size: int)
    requires size > 0 && i < n && (n - 1) * size < |bounded| <= n * size
    ensures 0 <= i * size <= (i + 1) * size
    ensures 0 < |Slice(bounded, i * size, (i + 1) * size)| <= size
    ensures i < n - 1 ==> |Slice(bounded, i * size, (i + 1) * size)| == size
  {
    StartsInOrder(i, size);
    assert i * size <= (n - 1) * size;
    assert i < n - 1 ==> (i + 1) * size <= (n - 1) * size;
  }

  /**
   Limits are refused unless they are positive, within 8000, 4 and 32000, and the chunks they allow can
   hold the total. For every text and every admissible budget the chunks spell exactly the first `maxTotalChars`
   characters, there are ceil(length / chunkChars) of them and at most `maxChunks`, every chunk but
   the last is full and the last is not empty, and they spell the whole text iff none is truncated.
   */
  lemma {:induction false} ChunksReproduce(reference: Id, text: string, l: Limits)
    ensures BuildChunks(reference, text, l).Some? <==>
            0 < l.chunkChars <= 8000 && 0 < l.maxChunks <= 4 && 0 < l.maxTotalChars <= 32000
              && l.maxTotalChars <= l.chunkChars * l.maxChunks
    ensures BuildChunks(reference, text, l).Some? ==>
            var chunks := BuildChunks(reference, text, l).value;
            && Concat(chunks) == Bounded(text, l.maxTotalChars)
            && |chunks| <= l.maxChunks
            && (forall i :: 0 <= i < |chunks| ==>
                  && chunks[i].index == i && chunks[i].count == |chunks| && chunks[i].reference == reference
                  && 0 < |chunks[i].content| <= l.chunkChars
                     && (i < |chunks| - 1 ==> |chunks[i].content| == l.chunkChars)
                  && (chunks[i].truncated <==> Concat(chunks) != text))
            && (Concat(chunks) == text <==> |text| <= l.maxTotalChars)
  {
    hide Concat, Slice, ChunkCount;
    if !LimitsValid(l) {
      return;
    }
    var bounded := Bounded(text, l.maxTotalChars);
    var chunks := BuildChunks(reference, text, l).value;
    CeilBounds(|bounded|, l.chunkChars, l.maxTotalChars, l.maxChunks);
    PrefixIsText(reference, text, l, chunks, |chunks|);
    assert chunks[..|chunks|] == chunks;
    WholeSlice(bounded, |chunks| * l.chunkChars);
    assert bounded == text <==> |text| <= l.maxTotalChars;
    forall i | 0 <= i < |chunks|
      ensures 0 < |chunks[i].content| <= l.chunkChars && (i < |chunks| - 1 ==> |chunks[i].content| == l.chunkChars)
    {
      SliceLength(bounded, i, |chunks|, l.chunkChars);
    }
  }

  lemma WholeSlice(text: string, to: nat)
    requires |text| <= to
    ensures Slice(text, 0, to) == text
  {
  }
}
