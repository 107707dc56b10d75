/**
 * The reference definition of how a video buffer is cut into chunks, and what is
 * proved about it: the chunk count, the chunk sizes, the labels, and that the chunks
 * put back together give the buffer again.
 */
module Splitting {
  import opened Models
  import opened ChunkMath

  /**
   * Python slicing `s[lo:hi]` for non-negative bounds. The contract gives the in-range and
   * empty cases; `SliceClamped` gives the cases where a bound lies past the length.
   */
  function Slice(s: seq<byte>, lo: nat, hi: nat): (r: seq<byte>)
    ensures lo <= hi <= |s| ==> r == s[lo..hi]
    ensures hi <= lo ==> r == []
  {
    var l, h := Min(lo, |s|), Min(hi, |s|);
    if l <= h then s[l..h] else []
  }

  /** Both ends of a slice are clamped to the length: an end past it stops there, a start past it gives nothing. */
  lemma SliceClamped(s: seq<byte>, lo: nat, hi: nat)
    ensures lo <= |s| <= hi ==> Slice(s, lo, hi) == s[lo..]
    ensures |s| <= lo ==> Slice(s, lo, hi) == []
  {
  }

  /** The chunk record the splitter builds around one slice. */
  function MakeChunk(index: int, raw: seq<byte>, encode: seq<byte> -> string): VideoChunk
  {
    VideoChunk(index, encode(raw), |raw|, "mp4", raw)
  }

  /** Chunk k of a split with chunk size c: bytes [k*c, min(k*c + c, |data|)). */
  function ChunkAt(data: seq<byte>, c: nat, k: nat, encode: seq<byte> -> string): VideoChunk
  {
    MakeChunk(k + 1, Slice(data, k * c, Min(k * c + c, |data|)), encode)
  }

  /** The chunks of `data` under a limit of `max` bytes, in order. */
  function Split(data: seq<byte>, max: nat, encode: seq<byte> -> string): seq<VideoChunk>
    requires max > 0
  {
    var n, c := NumChunks(|data|, max), ChunkSize(|data|, max);
    seq(n, k requires 0 <= k < n => ChunkAt(data, c, k, encode))
  }

  /** The raw bytes of the chunks, concatenated in list order. */
  function Reassemble(chunks: seq<VideoChunk>): seq<byte>
  {
    if chunks == [] then [] else Reassemble(chunks[..|chunks| - 1]) + chunks[|chunks| - 1].raw
  }

  /** What a client gets by decoding every payload and concatenating the results in list order. */
  function DecodeAll(chunks: seq<VideoChunk>, decode: string -> seq<byte>): seq<byte>
  {
    if chunks == [] then [] else DecodeAll(chunks[..|chunks| - 1], decode) + decode(chunks[|chunks| - 1].data)
  }

  /** A buffer that fits the limit, the empty one included, becomes exactly one chunk holding all of it. */
  lemma SplitFits(data: seq<byte>, max: nat, encode: seq<byte> -> string)
    requires 0 < max && |data| <= max
    ensures Split(data, max, encode) == [VideoChunk(1, encode(data), |data|, "mp4", data)]
  {
    assert data[0..|data|] == data;
  }

  /**
   * The chunk count: one when the buffer fits, otherwise ceil(|data| / max); and it is the
   * least count whose chunks of at most `max` bytes can hold the buffer.
   */
  lemma SplitCount(data: seq<byte>, max: nat, encode: seq<byte> -> string)
    requires max > 0
    ensures var n := |Split(data, max, encode)|;
      && n == (if |data| <= max then 1 else CeilDiv(|data|, max))
      && |data| <= n * max
      && (n == 1 || (n - 1) * max < |data|)
  {
    SplitGeometry(|data|, max);
  }

  /**
   * The chunk sizes: every chunk holds at most `max` bytes; when the buffer is split, every
   * chunk but the last holds exactly ceil(|data| / n) bytes and the last holds between one
   * byte and that many; no chunk of a non-empty buffer is empty.
   */
  lemma SplitSizes(data: seq<byte>, max: nat, encode: seq<byte> -> string)
    requires max > 0
    ensures var cs := Split(data, max, encode);
      && (forall k :: 0 <= k < |cs| ==> |cs[k].raw| <= max)
      && (|data| > 0 ==> forall k :: 0 <= k < |cs| ==> |cs[k].raw| >= 1)
      && (|data| > max ==>
            var c := CeilDiv(|data|, |cs|);
            && (forall k :: 0 <= k < |cs| - 1 ==> |cs[k].raw| == c)
            && 1 <= |cs[|cs| - 1].raw| <= c)
  {
    var cs, c := Split(data, max, encode), ChunkSize(|data|, max);
    assert c <= max by {
      SplitGeometry(|data|, max);
    }
    if |data| > 0 {
      forall k | 0 <= k < |cs|
        ensures 1 <= |cs[k].raw| <= c
        ensures k < |cs| - 1 ==> |cs[k].raw| == c
      {
        ChunkLength(data, max, encode, k);
      }
    } else {
      assert cs[0].raw == [];
    }
  }

  /** Chunk k of a non-empty buffer holds between one and c bytes, and exactly c unless it is the last. */
  lemma ChunkLength(data: seq<byte>, max: nat, encode: seq<byte> -> string, k: nat)
    requires max > 0 && |data| > 0
    requires k < |Split(data, max, encode)|
    ensures var cs, c := Split(data, max, encode), ChunkSize(|data|, max);
      && 1 <= |cs[k].raw| <= c
      && (k < |cs| - 1 ==> |cs[k].raw| == c)
  {
    var c := ChunkSize(|data|, max);
    var lo := k * c;
    var hi := Min(lo + c, |data|);
    ChunkBounds(|data|, max, k);
    assert Split(data, max, encode)[k].raw == Slice(data, lo, hi);
    assert lo < hi <= |data|;
    assert |Slice(data, lo, hi)| == hi - lo;
  }

  /** Every chunk carries its 1-based position as index, the tag "mp4", its byte count, and the encoding of its bytes. */
  lemma SplitLabels(data: seq<byte>, max: nat, encode: seq<byte> -> string)
    requires max > 0
    ensures var cs := Split(data, max, encode);
      forall k :: 0 <= k < |cs| ==>
        && cs[k].index == k + 1
        && cs[k].format == "mp4"
        && cs[k].sizeBytes == |cs[k].raw|
        && cs[k].data == encode(cs[k].raw)
  {
  }

  /** `chunk` holds exactly bytes [lo, hi) of `data`. */
  ghost predicate HoldsSlice(chunk: VideoChunk, data: seq<byte>, lo: int, hi: int)
  {
    0 <= lo <= hi <= |data| && chunk.raw == data[lo..hi]
  }

  /**
   * `chunks` are consecutive slices of `data`: chunk j holds bytes [bounds[j], bounds[j+1]),
   * and the first one starts at offset 0.
   */
  ghost predicate Consecutive(chunks: seq<VideoChunk>, data: seq<byte>, bounds: seq<nat>)
  {
    && |bounds| == |chunks| + 1
    && bounds[0] == 0
    && forall j :: 0 <= j < |chunks| ==> HoldsSlice(chunks[j], data, bounds[j], bounds[j + 1])
  }

  /** Consecutive slices put back together are the buffer up to where the last one ends. */
  lemma {:induction false} ReassembleConsecutive(chunks: seq<VideoChunk>, data: seq<byte>, bounds: seq<nat>)
    requires Consecutive(chunks, data, bounds)
    ensures bounds[|chunks|] <= |data| && Reassemble(chunks) == data[..bounds[|chunks|]]
  {
    if chunks != [] {
      var j := |chunks| - 1;
      assert Consecutive(chunks[..j], data, bounds[..j + 1]);
      ReassembleConsecutive(chunks[..j], data, bounds[..j + 1]);
      assert data[..bounds[j]] + data[bounds[j]..bounds[j + 1]] == data[..bounds[j + 1]];
    }
  }

  /** Chunk j of the split holds bytes [min(j*c, |data|), min((j+1)*c, |data|)). */
  lemma ChunkSpan(data: seq<byte>, max: nat, encode: seq<byte> -> string, j: nat)
    requires max > 0
    requires j < |Split(data, max, encode)|
    ensures var c := ChunkSize(|data|, max);
      && Min(j * c, |data|) <= Min((j + 1) * c, |data|)
      && Split(data, max, encode)[j].raw == data[Min(j * c, |data|)..Min((j + 1) * c, |data|)]
  {
    var c := ChunkSize(|data|, max);
    MulSucc(j, c);
    if |data| > 0 {
      ChunkBounds(|data|, max, j);
    } else {
      assert Split(data, max, encode)[j].raw == [];
    }
  }

  /** The split's chunks are consecutive slices of the buffer at the offsets min(k*c, |data|), the last ending at |data|. */
  lemma SplitIsConsecutive(data: seq<byte>, max: nat, encode: seq<byte> -> string)
    requires max > 0
    ensures var cs, c := Split(data, max, encode), ChunkSize(|data|, max);
      var bounds := seq(|cs| + 1, k requires 0 <= k <= |cs| => Min(k * c, |data|));
      && Consecutive(cs, data, bounds)
      && bounds[|cs|] == |data|
  {
    var cs, c := Split(data, max, encode), ChunkSize(|data|, max);
    var bounds := seq(|cs| + 1, k requires 0 <= k <= |cs| => Min(k * c, |data|));
    SplitSlices(data, max, encode);
    forall j | 0 <= j < |cs|
      ensures HoldsSlice(cs[j], data, bounds[j], bounds[j + 1])
    {
      assert bounds[j] == Min(j * c, |data|) && bounds[j + 1] == Min((j + 1) * c, |data|);
    }
    assert bounds[|cs|] == |data| by {
      SplitGeometry(|data|, max);
    }
  }

  /** Chunk j of the split holds bytes [min(j*c, |data|), min((j+1)*c, |data|)), for every j. */
  lemma SplitSlices(data: seq<byte>, max: nat, encode: seq<byte> -> string)
    requires max > 0
    ensures var cs, c := Split(data, max, encode), ChunkSize(|data|, max);
      forall j :: 0 <= j < |cs| ==> HoldsSlice(cs[j], data, Min(j * c, |data|), Min((j + 1) * c, |data|))
  {
    var cs, c := Split(data, max, encode), ChunkSize(|data|, max);
    forall j | 0 <= j < |cs|
      ensures HoldsSlice(cs[j], data, Min(j * c, |data|), Min((j + 1) * c, |data|))
    {
      ChunkSpan(data, max, encode, j);
    }
  }

  /** Concatenating the chunks' bytes in list order reproduces the buffer exactly. */
  lemma SplitReassembles(data: seq<byte>, max: nat, encode: seq<byte> -> string)
    requires max > 0
    ensures Reassemble(Split(data, max, encode)) == data
  {
    var cs, c := Split(data, max, encode), ChunkSize(|data|, max);
    var bounds := seq(|cs| + 1, k requires 0 <= k <= |cs| => Min(k * c, |data|));
    SplitIsConsecutive(data, max, encode);
    ReassembleConsecutive(cs, data, bounds);
  }

  /** Decoding payloads chunk by chunk gives the raw bytes back when `decode` inverts `encode`. */
  lemma {:induction false} DecodeAllIsReassemble(chunks: seq<VideoChunk>, encode: seq<byte> -> string, decode: string -> seq<byte>)
    requires forall b :: decode(encode(b)) == b
    requires forall k :: 0 <= k < |chunks| ==> chunks[k].data == encode(chunks[k].raw)
    ensures DecodeAll(chunks, decode) == Reassemble(chunks)
  {
    if chunks != [] {
      DecodeAllIsReassemble(chunks[..|chunks| - 1], encode, decode);
    }
  }

  /** The round trip a client performs: decode every payload, concatenate in index order, get the buffer. */
  lemma SplitDecodes(data: seq<byte>, max: nat, encode: seq<byte> -> string, decode: string -> seq<byte>)
    requires max > 0
    requires forall b :: decode(encode(b)) == b
    ensures DecodeAll(Split(data, max, encode), decode) == data
  {
    SplitLabels(data, max, encode);
    DecodeAllIsReassemble(Split(data, max, encode), encode, decode);
    SplitReassembles(data, max, encode);
  }

  /** Chunks are not balanced to within one byte: ten bytes under a limit of three give 3, 3, 3 and 1. */
  lemma UnbalancedLastChunk(data: seq<byte>, encode: seq<byte> -> string)
    requires |data| == 10
    ensures var cs := Split(data, 3, encode);
      |cs| == 4 && |cs[0].raw| == 3 && |cs[1].raw| == 3 && |cs[2].raw| == 3 && |cs[3].raw| == 1
  {
  }

  /** 30,000,000 bytes under the default 25 MiB limit become two chunks of 15,000,000 bytes. */
  lemma ThirtyMillionBytes(data: seq<byte>, encode: seq<byte> -> string)
    requires |data| == 30_000_000
    ensures var cs := Split(data, 25 * 1024 * 1024, encode);
      |cs| == 2 && |cs[0].raw| == 15_000_000 && |cs[1].raw| == 15_000_000
  {
  }
}
