// The byte-counting writers under the frame size limit, and the bytes of an encoded frame list.

module FrameBytes {
  import opened Wrappers
  import opened Checked
  import opened ReplayFrames

  const USIZE_MAX: nat := 0xFFFF_FFFF_FFFF_FFFF

  type Usize = x: nat | x <= USIZE_MAX

  type Bytes = seq<U8>

  const OPEN_BRACKET: U8 := 91
  const COMMA: U8 := 44
  const CLOSE_BRACKET: U8 := 93

  function CheckedAddUsize(a: Usize, b: nat): Option<Usize> {
    if a + b <= USIZE_MAX then Some(a + b) else None
  }

  /** The bytes a serializer emits, whatever pieces it emits them in. */
  function Flatten(chunks: seq<Bytes>): Bytes {
    if chunks == [] then [] else Flatten(chunks[..|chunks| - 1]) + chunks[|chunks| - 1]
  }

  lemma {:induction false} PrefixIsNoLonger(chunks: seq<Bytes>, i: nat)
    requires i <= |chunks|
    ensures |Flatten(chunks[..i])| <= |Flatten(chunks)|
    decreases |chunks|
  {
    if i == |chunks| {
      assert chunks[..i] == chunks;
    } else {
      assert chunks[..|chunks| - 1][..i] == chunks[..i];
      PrefixIsNoLonger(chunks[..|chunks| - 1], i);
    }
  }

  lemma FlattenStep(chunks: seq<Bytes>, i: nat)
    requires i < |chunks|
    ensures Flatten(chunks[..i + 1]) == Flatten(chunks[..i]) + chunks[i]
  {
    assert chunks[..i + 1][..i] == chunks[..i];
  }

  /** Counts bytes without keeping them. */
  class CountingWriter {
    var bytes: Usize
    const limit: Usize
    var overflowed: bool

    constructor (limit: Usize)
      ensures this.limit == limit && bytes == 0 && !overflowed
    {
      this.limit := limit;
      bytes, overflowed := 0, false;
    }

    /** Takes a whole buffer or none of it. */
    method Write(buffer: Bytes) returns (r: Option<nat>)
      modifies this
      ensures r == if old(bytes) + |buffer| <= limit then Some(|buffer|) else None
      ensures bytes == old(bytes) + r.GetOr(0)
      ensures overflowed == (old(overflowed) || r.None?)
    {
      var total := CheckedAddUsize(bytes, |buffer|);
      if total.None? || total.value > limit {
        overflowed := true;
        return None;
      }
      bytes := total.value;
      return Some(|buffer|);
    }

    /** Keeps writing what is left of a buffer; an empty one is never offered to `Write`. */
    method WriteAll(buffer: Bytes) returns (ok: bool)
      requires bytes <= limit
      modifies this
      ensures ok <==> old(bytes) + |buffer| <= limit
      ensures ok ==> bytes == old(bytes) + |buffer| && overflowed == old(overflowed)
      ensures !ok ==> overflowed
    {
      var left := buffer;
      while left != []
        invariant bytes <= limit && bytes + |left| == old(bytes) + |buffer| && overflowed == old(overflowed)
        decreases |left|
      {
        var taken := Write(left);
        if taken.None? { return false; }
        left := left[taken.value..];
      }
      return true;
    }
  }

  /** Keeps the bytes it counts. */
  class LimitedWriter {
    var bytes: Bytes
    const limit: Usize
    var overflowed: bool

    constructor (limit: Usize)
      ensures this.limit == limit && bytes == [] && !overflowed
    {
      this.limit := limit;
      bytes, overflowed := [], false;
    }

    method Write(buffer: Bytes) returns (r: Option<nat>)
      requires |bytes| <= limit
      modifies this
      ensures r == if |old(bytes)| + |buffer| <= limit then Some(|buffer|) else None
      ensures bytes == if r.Some? then old(bytes) + buffer else old(bytes)
      ensures overflowed == (old(overflowed) || r.None?)
    {
      var total := CheckedAddUsize(|bytes|, |buffer|);
      if total.None? || total.value > limit {
        overflowed := true;
        return None;
      }
      bytes := bytes + buffer;
      return Some(|buffer|);
    }

    method WriteAll(buffer: Bytes) returns (ok: bool)
      requires |bytes| <= limit
      modifies this
      ensures ok <==> |old(bytes)| + |buffer| <= limit
      ensures ok ==> bytes == old(bytes) + buffer && overflowed == old(overflowed)
      ensures !ok ==> overflowed
    {
      var left := buffer;
      while left != []
        invariant |bytes| <= limit && bytes + left == old(bytes) + buffer && overflowed == old(overflowed)
        decreases |left|
      {
        var taken := Write(left);
        if taken.None? {
          assert |bytes + left| == |old(bytes) + buffer|;
          return false;
        }
        left := left[taken.value..];
      }
      return true;
    }
  }

  /** The length of a serialized value if it is within the limit, for any cut of it into writes. */
  method SerializedLen(chunks: seq<Bytes>, limit: Usize) returns (r: Result<nat, ReplayError>)
    ensures r == if |Flatten(chunks)| <= limit then Ok(|Flatten(chunks)|) else Err(ReplayTooLarge)
  {
    var writer := new CountingWriter(limit);
    for i := 0 to |chunks|
      invariant writer.limit == limit && !writer.overflowed
      invariant writer.bytes == |Flatten(chunks[..i])| <= limit
    {
      FlattenStep(chunks, i);
      var ok := writer.WriteAll(chunks[i]);
      if !ok {
        PrefixIsNoLonger(chunks, i + 1);
        return if writer.overflowed then Err(ReplayTooLarge) else Err(Json);
      }
    }
    assert chunks[..|chunks|] == chunks;
    return Ok(writer.bytes);
  }

  /** The serialized value itself if it is within the limit, for any cut of it into writes. */
  method SerializeBounded(chunks: seq<Bytes>) returns (r: Result<Bytes, ReplayError>)
    ensures r == if |Flatten(chunks)| <= MAX_REPLAY_FRAME_BYTES then Ok(Flatten(chunks)) else Err(ReplayTooLarge)
  {
    var writer := new LimitedWriter(MAX_REPLAY_FRAME_BYTES);
    for i := 0 to |chunks|
      invariant writer.limit == MAX_REPLAY_FRAME_BYTES && !writer.overflowed
      invariant writer.bytes == Flatten(chunks[..i]) && |writer.bytes| <= MAX_REPLAY_FRAME_BYTES
    {
      FlattenStep(chunks, i);
      var ok := writer.WriteAll(chunks[i]);
      if !ok {
        PrefixIsNoLonger(chunks, i + 1);
        return if writer.overflowed then Err(ReplayTooLarge) else Err(Json);
      }
    }
    assert chunks[..|chunks|] == chunks;
    return Ok(writer.bytes);
  }

  // ----- A list of frames as a JSON array -------------------------------------------------------

  /** How a frame's JSON text comes out of the serializer: its pieces, in order. */
  type Chunking = ReplayFrame -> seq<Bytes>

  function SizeOf(chunking: Chunking): ReplayFrame -> nat {
    f => |Flatten(chunking(f))|
  }

  /** An open bracket and the frames so far, separated by commas. */
  function ArrayBody(frames: seq<ReplayFrame>, chunking: Chunking): Bytes {
    if frames == [] then [OPEN_BRACKET]
    else
      var last := |frames| - 1;
      ArrayBody(frames[..last], chunking) + (if last > 0 then [COMMA] else []) + Flatten(chunking(frames[last]))
  }

  function ArrayBytes(frames: seq<ReplayFrame>, chunking: Chunking): Bytes {
    ArrayBody(frames, chunking) + [CLOSE_BRACKET]
  }

  /** The incremental count is the length of the array's text. */
  lemma {:induction false} EncodedSizeIsLength(frames: seq<ReplayFrame>, chunking: Chunking)
    ensures EncodedSize(frames, SizeOf(chunking)) == |ArrayBytes(frames, chunking)|
  {
    if frames != [] {
      EncodedSizeIsLength(frames[..|frames| - 1], chunking);
    }
  }

  lemma {:induction false} EncodedSizeGrows(frames: seq<ReplayFrame>, size: ReplayFrame -> nat, i: nat)
    requires i <= |frames|
    ensures EncodedSize(frames[..i], size) <= EncodedSize(frames, size)
    decreases |frames|
  {
    if i == |frames| {
      assert frames[..i] == frames;
    } else {
      assert frames[..|frames| - 1][..i] == frames[..i];
      EncodedSizeGrows(frames[..|frames| - 1], size, i);
    }
  }

  /** The frame list can be encoded: few enough frames, few enough bytes. */
  predicate EncodeFits(frames: seq<ReplayFrame>, chunking: Chunking) {
    |frames| <= MAX_REPLAY_EVENTS && EncodedSize(frames, SizeOf(chunking)) <= MAX_REPLAY_FRAME_BYTES
  }

  /** Encodes a frame list, for any cut of the array's text into writes. */
  method EncodeReplayFrames(frames: seq<ReplayFrame>, chunking: Chunking, chunks: seq<Bytes>)
    returns (r: Result<Bytes, ReplayError>)
    requires Flatten(chunks) == ArrayBytes(frames, chunking)
    ensures r == if EncodeFits(frames, chunking) then Ok(ArrayBytes(frames, chunking)) else Err(ReplayTooLarge)
  {
    if |frames| > MAX_REPLAY_EVENTS { return Err(ReplayTooLarge); }
    EncodedSizeIsLength(frames, chunking);
    r := SerializeBounded(chunks);
  }
}
