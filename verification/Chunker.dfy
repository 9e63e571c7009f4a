/** The chunker: pieces of any number of streams copied into buffers of one pool, and buffers returned by Free. */
module Chunker {

  type Bytes = seq<bv8>

  class Chunk {
    const offset: nat
    const size: nat
    const buffer: array<bv8>
    var freed: bool
    /** The bytes the splitter cut off for this chunk. */
    ghost const piece: Bytes

    constructor (offset: nat, ghost piece: Bytes, size: nat, buffer: array<bv8>)
      ensures this.offset == offset && this.size == size && this.buffer == buffer && this.piece == piece && !freed
    {
      this.offset, this.size, this.buffer, freed := offset, size, buffer, false;
      this.piece := piece;
    }

    /** The Data field: the copied piece, or nil once the chunk is freed. */
    ghost function Data(): Bytes
      requires size <= buffer.Length
      reads this, buffer
    {
      if freed then [] else buffer[..size]
    }
  }

  /** The copy builtin. */
  method CopyInto(b: array<bv8>, piece: Bytes)
    requires |piece| <= b.Length
    modifies b
    ensures b[..|piece|] == piece
  {
    for i := 0 to |piece|
      invariant b[..i] == piece[..i]
    {
      b[i] := piece[i];
    }
  }

  /** One call of Chunk: the offset it has reached, and the bytes it has handed out. */
  class Stream {
    var offset: nat
    ghost var consumed: Bytes

    constructor ()
      ensures Valid() && consumed == []
    {
      offset, consumed := 0, [];
    }

    ghost predicate Valid()
      reads this
    {
      offset == |consumed|
    }
  }

  class CDCChunker {
    const maxSize: nat
    var pool: set<array<bv8>>
    /** The chunks that any stream has handed out and that are not yet freed. */
    ghost var live: set<Chunk>

    constructor (maxSize: nat)
      ensures Valid() && this.maxSize == maxSize && live == {} && pool == {}
    {
      this.maxSize, pool, live := maxSize, {}, {};
    }

    /** No live chunk has its buffer in the pool, no two live chunks share one, and each still holds its bytes. */
    ghost predicate Valid()
      reads this, live, (set c | c in live :: c.buffer)
    {
      && (forall b :: b in pool ==> b.Length == maxSize)
      && (forall c :: c in live ==> !c.freed && c.size <= c.buffer.Length == maxSize && c.buffer !in pool)
      && (forall c, d :: c in live && d in live && c.buffer == d.buffer ==> c == d)
      && (forall c :: c in live ==> c.Data() == c.piece)
    }

    /** bufferPool.Get: some pooled buffer or, since a pool may drop what it holds, a new one. */
    method GetBuffer() returns (b: array<bv8>)
      requires Valid()
      modifies this`pool
      ensures b.Length == maxSize && b !in pool && pool <= old(pool) && (b in old(pool) || fresh(b))
      ensures forall c :: c in live ==> c.buffer != b
    {
      if pool != {} {
        var useIt: bool :| true;
        if useIt {
          b :| b in pool;
          pool := pool - {b};
          return;
        }
      }
      b := new bv8[maxSize];
    }

    /**
     One turn of a stream's loop: the next piece of the splitter. If the receiver is cancelled before it takes
     the chunk, the chunk is freed and the offset stays.
     */
    method Emit(stream: Stream, piece: Bytes, delivered: bool) returns (c: Chunk)
      requires Valid() && stream.Valid() && |piece| <= maxSize
      modifies this, pool, stream
      ensures Valid() && stream.Valid() && fresh(c) && c.size == |piece| <= c.buffer.Length
      ensures c.offset == |old(stream.consumed)|
      ensures c.piece == piece && pool <= old(pool) + {c.buffer}
      ensures delivered ==> live == old(live) + {c} && stream.consumed == old(stream.consumed) + piece && pool <= old(pool)
      ensures !delivered ==> live == old(live) && stream.consumed == old(stream.consumed) && c.freed
    {
      var b := GetBuffer();
      CopyInto(b, piece);
      c := new Chunk(stream.offset, piece, |piece|, b);
      if delivered {
        stream.offset := stream.offset + |piece|;
        stream.consumed := stream.consumed + piece;
        live := live + {c};
      } else {
        c.freed := true;
        pool := pool + {b};
      }
    }

    /** Chunk.Free: only the first call has an effect. */
    method Free(c: Chunk)
      requires Valid() && (c in live || c.freed)
      modifies this`pool, this`live, c
      ensures Valid() && c.freed && live == old(live) - {c}
      ensures pool == if old(c.freed) then old(pool) else old(pool) + {c.buffer}
    {
      if !c.freed {
        c.freed := true;
        pool := pool + {c.buffer};
        live := live - {c};
      }
    }
  }

  /** The first n pieces, joined. */
  function Joined(pieces: seq<Bytes>, n: nat): Bytes
    requires n <= |pieces|
  {
    if n == 0 then [] else Joined(pieces, n - 1) + pieces[n - 1]
  }

  /** Chunk c stands for piece i and starts where the earlier pieces end. */
  ghost predicate Stands(c: Chunk, pieces: seq<Bytes>, i: nat) {
    i < |pieces| && c.piece == pieces[i] && c.offset == |Joined(pieces, i)|
  }

  /** The chunks handed out so far stand for the pieces so far, and none was freed. */
  ghost predicate HandedOut(live: set<Chunk>, chunks: seq<Chunk>, pieces: seq<Bytes>) {
    && |chunks| <= |pieces|
    && (forall i :: 0 <= i < |chunks| ==> chunks[i] in live)
    && (forall i :: 0 <= i < |chunks| ==> Stands(chunks[i], pieces, i))
  }

  lemma HandedOutNext(live: set<Chunk>, chunks: seq<Chunk>, pieces: seq<Bytes>, c: Chunk)
    requires HandedOut(live, chunks, pieces) && |chunks| < |pieces| && Stands(c, pieces, |chunks|)
    ensures HandedOut(live + {c}, chunks + [c], pieces)
  {}

  /** How far a stream has come. */
  ghost predicate Streaming(stream: Stream, live: set<Chunk>, chunks: seq<Chunk>, pieces: seq<Bytes>)
    reads stream
  {
    HandedOut(live, chunks, pieces) && stream.Valid() && stream.consumed == Joined(pieces, |chunks|)
  }

  predicate Bounded(pieces: seq<Bytes>, maxSize: nat) {
    forall i :: 0 <= i < |pieces| ==> |pieces[i]| <= maxSize
  }

  /** The next chunk of a stream; the chunks of others stay in their hands. */
  method Next(chunker: CDCChunker, stream: Stream, pieces: seq<Bytes>, chunks: seq<Chunk>) returns (more: seq<Chunk>)
    requires chunker.Valid() && Streaming(stream, chunker.live, chunks, pieces)
    requires Bounded(pieces, chunker.maxSize) && |chunks| < |pieces|
    modifies chunker, chunker.pool, stream
    ensures chunker.Valid() && Streaming(stream, chunker.live, more, pieces) && |more| == |chunks| + 1
    ensures old(chunker.live) <= chunker.live && chunker.pool <= old(chunker.pool)
  {
    var c := chunker.Emit(stream, pieces[|chunks|], true);
    HandedOutNext(old(chunker.live), chunks, pieces, c);
    more := chunks + [c];
  }

  lemma StillHandedOut(live: set<Chunk>, more: set<Chunk>, chunks: seq<Chunk>, pieces: seq<Bytes>)
    requires HandedOut(live, chunks, pieces) && live <= more
    ensures HandedOut(more, chunks, pieces)
  {}

  /** How many of the turns are these. */
  function Turns(turns: seq<bool>, which: bool): nat {
    if turns == [] then 0 else
      Turns(turns[..|turns| - 1], which) + (if turns[|turns| - 1] == which then 1 else 0)
  }

  function Min(m: nat, n: nat): nat { if m <= n then m else n }

  lemma TurnsNext(turns: seq<bool>, i: nat, which: bool)
    requires i < |turns|
    ensures Turns(turns[..i + 1], which) == Turns(turns[..i], which) + (if turns[i] == which then 1 else 0)
  {
    assert turns[..i + 1][..i] == turns[..i];
  }

  /**
   Two streams through one pool, in any order of turns: the chunks that each has handed out hold its pieces, all of them
   at the same time, each at its offset in its own stream, whatever other streams have handed out before. Every turn of a stream that has
   pieces left hands out its next one.
   */
  method ChunkBoth(chunker: CDCChunker, a: seq<Bytes>, b: seq<Bytes>, turns: seq<bool>)
    returns (chunksA: seq<Chunk>, chunksB: seq<Chunk>)
    requires chunker.Valid() && Bounded(a, chunker.maxSize) && Bounded(b, chunker.maxSize)
    modifies chunker, chunker.pool
    ensures chunker.Valid() && old(chunker.live) <= chunker.live
    ensures HandedOut(chunker.live, chunksA, a) && HandedOut(chunker.live, chunksB, b)
    ensures |chunksA| == Min(Turns(turns, true), |a|) && |chunksB| == Min(Turns(turns, false), |b|)
  {
    var streamA := new Stream();
    var streamB := new Stream();
    chunksA, chunksB := [], [];
    for i := 0 to |turns|
      invariant chunker.Valid() && old(chunker.live) <= chunker.live && chunker.pool <= old(chunker.pool)
      invariant Streaming(streamA, chunker.live, chunksA, a) && Streaming(streamB, chunker.live, chunksB, b)
      invariant |chunksA| == Min(Turns(turns[..i], true), |a|) && |chunksB| == Min(Turns(turns[..i], false), |b|)
    {
      TurnsNext(turns, i, true);
      TurnsNext(turns, i, false);
      ghost var live := chunker.live;
      if turns[i] && |chunksA| < |a| {
        chunksA := Next(chunker, streamA, a, chunksA);
        StillHandedOut(live, chunker.live, chunksB, b);
      } else if !turns[i] && |chunksB| < |b| {
        chunksB := Next(chunker, streamB, b, chunksB);
        StillHandedOut(live, chunker.live, chunksA, a);
      }
    }
    assert turns[..|turns|] == turns;
  }

  /**
   A stream cut into any pieces of at most maxSize bytes: the chunks handed out hold the pieces, all at the
   same time, each at its offset, and together they are the stream.
   */
  method ChunkAll(chunker: CDCChunker, pieces: seq<Bytes>) returns (chunks: seq<Chunk>, ghost consumed: Bytes)
    requires chunker.Valid() && Bounded(pieces, chunker.maxSize)
    modifies chunker, chunker.pool
    ensures chunker.Valid() && |chunks| == |pieces| && consumed == Joined(pieces, |pieces|)
    ensures HandedOut(chunker.live, chunks, pieces) && old(chunker.live) <= chunker.live
    ensures forall i :: 0 <= i < |chunks| ==> chunks[i].size <= chunks[i].buffer.Length && chunks[i].Data() == pieces[i]
  {
    var stream := new Stream();
    chunks := [];
    while |chunks| < |pieces|
      invariant chunker.Valid() && Streaming(stream, chunker.live, chunks, pieces)
      invariant old(chunker.live) <= chunker.live && chunker.pool <= old(chunker.pool)
      decreases |pieces| - |chunks|
    {
      chunks := Next(chunker, stream, pieces, chunks);
    }
    consumed := stream.consumed;
  }
}
