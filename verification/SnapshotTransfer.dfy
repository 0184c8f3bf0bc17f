/** Sending a snapshot file in chunks that the follower writes at their offsets. */
module SnapshotTransfer {
  import opened RaftTypes

  const CHUNK_SIZE := 128 * 1024

  /** `offset` is the 32-bit field of the request. */
  datatype Chunk = Chunk(offset: int, data: seq<Byte>, done: bool)

  /** Conversion to a signed 32-bit integer. */
  function Int32(x: int): int {
    (x + 0x8000_0000) % 0x1_0000_0000 - 0x8000_0000
  }

  // ---------------------------------------------------------------- the follower's file

  /** Writing inside a file, past its end, or across its end; a gap is filled with zeros. */
  function WriteAt(file: seq<Byte>, data: seq<Byte>, offset: nat): seq<Byte> {
    var padded := if |file| < offset then file + seq(offset - |file|, _ => 0) else file[..offset];
    padded + data + if offset + |data| < |file| then file[offset + |data|..] else []
  }

  /** Byte by byte: the data where it is written, the old file elsewhere, and zeros in a gap. */
  lemma WrittenByte(file: seq<Byte>, data: seq<Byte>, offset: nat, i: nat)
    ensures |WriteAt(file, data, offset)|
            == if |file| < offset + |data| then offset + |data| else |file|
    ensures i < |WriteAt(file, data, offset)| ==>
              WriteAt(file, data, offset)[i]
              == if offset <= i < offset + |data| then data[i - offset] else if i < |file| then file[i] else 0
  {
  }

  /** Offset zero creates or empties the file; other offsets need it to exist and to be positive. */
  function WriteSnapshot(file: Option<seq<Byte>>, data: seq<Byte>, offset: int): Option<Option<seq<Byte>>> {
    if offset == 0 then Some(Some(WriteAt([], data, 0)))
    else if file.None? || offset < 0 then None
    else Some(Some(WriteAt(file.value, data, offset)))
  }

  class SnapshotFile {
    var file: Option<seq<Byte>>

    constructor (file: Option<seq<Byte>>)
      ensures this.file == file
    {
      this.file := file;
    }

    method WriteSnapshotData(data: seq<Byte>, offset: int) returns (ok: bool)
      modifies this
      ensures ok <==> WriteSnapshot(old(file), data, offset).Some?
      ensures file == if ok then WriteSnapshot(old(file), data, offset).value else old(file)
    {
      if offset == 0 {
        file := Some([]);
      } else if file.None? {
        return false;
      }
      if offset < 0 {
        return false;
      }
      file := Some(WriteAt(file.value, data, offset));
      return true;
    }
  }

  // ---------------------------------------------------------------- the chunks

  /** `sizes[i]` bounds what the `i`th read returns: at least one byte, at most a buffer. There is a
      bound for each of the reads that `left` more bytes can take. */
  ghost predicate ReadsSome(sizes: seq<nat>, i: nat, left: nat) {
    i + left <= |sizes| && forall j :: 0 <= j < |sizes| ==> 1 <= sizes[j] <= CHUNK_SIZE
  }

  /** How many bytes the `i`th read returns. */
  function BytesRead(sizes: seq<nat>, i: nat, left: nat): nat
    requires ReadsSome(sizes, i, left)
  {
    if left == 0 then 0 else if sizes[i] < left then sizes[i] else left
  }

  ghost function Chunks(bytes: seq<Byte>, sizes: seq<nat>, i: nat, offset: nat): seq<Chunk>
    requires offset <= |bytes| && ReadsSome(sizes, i, |bytes| - offset)
    decreases |bytes| - offset
  {
    if offset == |bytes| then []
    else
      var n := BytesRead(sizes, i, |bytes| - offset);
      [Chunk(Int32(offset), bytes[offset..offset + n], offset + n >= |bytes|)] + Chunks(bytes, sizes, i + 1, offset + n)
  }

  /** Where the last chunk starts. */
  ghost function LastOffset(bytes: seq<Byte>, sizes: seq<nat>, i: nat, offset: nat): nat
    requires offset < |bytes| && ReadsSome(sizes, i, |bytes| - offset)
    decreases |bytes| - offset
  {
    var n := BytesRead(sizes, i, |bytes| - offset);
    if offset + n == |bytes| then offset else LastOffset(bytes, sizes, i + 1, offset + n)
  }

  datatype Delivered = Delivered(file: Option<seq<Byte>>, ok: bool, count: nat)

  /** The follower's file after the chunks, the sender stopping at the first error. */
  function Deliver(file: Option<seq<Byte>>, chunks: seq<Chunk>): Delivered
    decreases chunks
  {
    if chunks == [] then Delivered(file, true, 0)
    else
      var written := WriteSnapshot(file, chunks[0].data, chunks[0].offset);
      if written.None? then Delivered(file, false, 0)
      else
        var rest := Deliver(written.value, chunks[1..]);
        rest.(count := rest.count + 1)
  }

  // ---------------------------------------------------------------- the round trip

  /** The transfer from `offset` on is one write and then the rest. */
  lemma DeliverNext(file: Option<seq<Byte>>, bytes: seq<Byte>, sizes: seq<nat>, i: nat, offset: nat, n: nat)
    requires offset < |bytes| && ReadsSome(sizes, i, |bytes| - offset) && n == BytesRead(sizes, i, |bytes| - offset)
    ensures Deliver(file, Chunks(bytes, sizes, i, offset))
            == match WriteSnapshot(file, bytes[offset..offset + n], Int32(offset))
               case None => Delivered(file, false, 0)
               case Some(next) =>
                 var rest := Deliver(next, Chunks(bytes, sizes, i + 1, offset + n));
                 rest.(count := rest.count + 1)
    ensures |Chunks(bytes, sizes, i, offset)| == 1 + |Chunks(bytes, sizes, i + 1, offset + n)|
  {
    assert Chunks(bytes, sizes, i, offset)[1..] == Chunks(bytes, sizes, i + 1, offset + n);
  }

  lemma WriteExtends(file: Option<seq<Byte>>, bytes: seq<Byte>, offset: nat, n: nat)
    requires offset + n <= |bytes| && offset < 0x8000_0000
    requires offset > 0 ==> file == Some(bytes[..offset])
    ensures WriteSnapshot(file, bytes[offset..offset + n], Int32(offset)) == Some(Some(bytes[..offset + n]))
  {
    assert Int32(offset) == offset;
    assert bytes[..offset] + bytes[offset..offset + n] == bytes[..offset + n];
    var before := if offset == 0 then [] else bytes[..offset];
    assert WriteAt(before, bytes[offset..offset + n], offset) == bytes[..offset + n];
  }

  lemma {:induction false} LastOffsetAtLeast(bytes: seq<Byte>, sizes: seq<nat>, i: nat, offset: nat)
    requires offset < |bytes| && ReadsSome(sizes, i, |bytes| - offset)
    ensures offset <= LastOffset(bytes, sizes, i, offset) < |bytes| <= LastOffset(bytes, sizes, i, offset) + CHUNK_SIZE
    decreases |bytes| - offset
  {
    var n := BytesRead(sizes, i, |bytes| - offset);
    if offset + n < |bytes| {
      LastOffsetAtLeast(bytes, sizes, i + 1, offset + n);
    }
  }

  /** A transfer whose last chunk starts below 2^31 completes, and the file is then the snapshot. */
  lemma {:induction false} DeliverFits(bytes: seq<Byte>, sizes: seq<nat>, i: nat, offset: nat, file: Option<seq<Byte>>)
    requires offset < |bytes| && ReadsSome(sizes, i, |bytes| - offset)
    requires offset > 0 ==> file == Some(bytes[..offset])
    requires LastOffset(bytes, sizes, i, offset) < 0x8000_0000
    ensures Deliver(file, Chunks(bytes, sizes, i, offset))
            == Delivered(Some(bytes), true, |Chunks(bytes, sizes, i, offset)|)
    decreases |bytes| - offset
  {
    var n := BytesRead(sizes, i, |bytes| - offset);
    DeliverNext(file, bytes, sizes, i, offset, n);
    LastOffsetAtLeast(bytes, sizes, i, offset);
    WriteExtends(file, bytes, offset, n);
    if offset + n < |bytes| {
      DeliverFits(bytes, sizes, i + 1, offset + n, Some(bytes[..offset + n]));
    } else {
      assert bytes[..offset + n] == bytes;
    }
  }

  lemma WriteRefused(file: Option<seq<Byte>>, data: seq<Byte>, offset: nat)
    requires 0x8000_0000 <= offset < 0x8000_0000 + CHUNK_SIZE
    ensures WriteSnapshot(file, data, Int32(offset)).None?
  {
    assert Int32(offset) < 0;
  }

  /** Otherwise the first chunk that starts at 2^31 or later is refused. */
  lemma {:induction false} DeliverFails(bytes: seq<Byte>, sizes: seq<nat>, i: nat, offset: nat,
                                        file: Option<seq<Byte>>)
    requires offset < |bytes| && ReadsSome(sizes, i, |bytes| - offset) && offset < 0x8000_0000 + CHUNK_SIZE
    requires offset > 0 ==> file == Some(bytes[..offset])
    requires LastOffset(bytes, sizes, i, offset) >= 0x8000_0000
    ensures var d := Deliver(file, Chunks(bytes, sizes, i, offset));
            !d.ok && d.count < |Chunks(bytes, sizes, i, offset)|
    decreases |bytes| - offset
  {
    var n := BytesRead(sizes, i, |bytes| - offset);
    DeliverNext(file, bytes, sizes, i, offset, n);
    if offset < 0x8000_0000 {
      WriteExtends(file, bytes, offset, n);
      DeliverFails(bytes, sizes, i + 1, offset + n, Some(bytes[..offset + n]));
    } else {
      WriteRefused(file, bytes[offset..offset + n], offset);
    }
  }

  ghost predicate DoneOnlyLast(chunks: seq<Chunk>) {
    forall j :: 0 <= j < |chunks| ==> (chunks[j].done <==> j == |chunks| - 1)
  }

  lemma {:induction false} OnlyLastIsDone(bytes: seq<Byte>, sizes: seq<nat>, i: nat, offset: nat)
    requires offset < |bytes| && ReadsSome(sizes, i, |bytes| - offset)
    ensures Chunks(bytes, sizes, i, offset) != [] && DoneOnlyLast(Chunks(bytes, sizes, i, offset))
    decreases |bytes| - offset
  {
    var n := BytesRead(sizes, i, |bytes| - offset);
    if offset + n < |bytes| {
      OnlyLastIsDone(bytes, sizes, i + 1, offset + n);
    }
  }

  /** For every non-empty snapshot, every sequence of read sizes and whatever the follower's file held
      before: the last chunk and only it is marked done; the transfer completes exactly when the last
      chunk starts below 2^31, and then the file is the snapshot; if it does not complete, the chunk
      marked done is never accepted. */
  lemma SnapshotRoundTripIff(bytes: seq<Byte>, sizes: seq<nat>, before: Option<seq<Byte>>)
    requires ReadsSome(sizes, 0, |bytes|) && bytes != []
    ensures var chunks := Chunks(bytes, sizes, 0, 0);
            var d := Deliver(before, chunks);
            && DoneOnlyLast(chunks)
            && (d.ok <==> LastOffset(bytes, sizes, 0, 0) < 0x8000_0000)
            && (d.ok ==> d.file == Some(bytes))
            && (!d.ok ==> d.count < |chunks| && forall j :: 0 <= j < d.count ==> !chunks[j].done)
  {
    OnlyLastIsDone(bytes, sizes, 0, 0);
    if LastOffset(bytes, sizes, 0, 0) < 0x8000_0000 {
      DeliverFits(bytes, sizes, 0, 0, before);
    } else {
      DeliverFails(bytes, sizes, 0, 0, before);
    }
  }

  /** Whatever the read sizes, a snapshot of at most 2^31 bytes is sent, and one of 2^31 bytes and a
      buffer or more is not. */
  lemma SizeDecides(bytes: seq<Byte>, sizes: seq<nat>, before: Option<seq<Byte>>)
    requires ReadsSome(sizes, 0, |bytes|) && bytes != []
    ensures |bytes| <= 0x8000_0000 ==> Deliver(before, Chunks(bytes, sizes, 0, 0)).ok
    ensures |bytes| >= 0x8000_0000 + 131_072 ==> !Deliver(before, Chunks(bytes, sizes, 0, 0)).ok
  {
    LastOffsetAtLeast(bytes, sizes, 0, 0);
    SnapshotRoundTripIff(bytes, sizes, before);
  }

  /** Sending the rest from `offset` on, after `count` chunks, ends as `want`. */
  ghost predicate Pending(want: Delivered, file: Option<seq<Byte>>, bytes: seq<Byte>, sizes: seq<nat>, i: nat,
                          offset: nat, count: nat)
    requires offset <= |bytes| && ReadsSome(sizes, i, |bytes| - offset)
  {
    var rest := Deliver(file, Chunks(bytes, sizes, i, offset));
    want == rest.(count := rest.count + count)
  }

  lemma PendingNext(want: Delivered, file: Option<seq<Byte>>, bytes: seq<Byte>, sizes: seq<nat>, i: nat, offset: nat,
                    count: nat, n: nat)
    requires offset < |bytes| && ReadsSome(sizes, i, |bytes| - offset) && n == BytesRead(sizes, i, |bytes| - offset)
    requires Pending(want, file, bytes, sizes, i, offset, count)
    ensures match WriteSnapshot(file, bytes[offset..offset + n], Int32(offset))
            case None => want == Delivered(file, false, count)
            case Some(next) => Pending(want, next, bytes, sizes, i + 1, offset + n, count + 1)
  {
    DeliverNext(file, bytes, sizes, i, offset, n);
  }

  lemma PendingEnd(want: Delivered, file: Option<seq<Byte>>, bytes: seq<Byte>, sizes: seq<nat>, i: nat, count: nat)
    requires ReadsSome(sizes, i, 0) && Pending(want, file, bytes, sizes, i, |bytes|, count)
    ensures want == Delivered(file, true, count)
  {
  }

  /** One request to the follower. */
  method SendChunk(bytes: seq<Byte>, offset: nat, n: nat, follower: SnapshotFile) returns (ok: bool)
    requires offset + n <= |bytes|
    modifies follower
    ensures ok <==> WriteSnapshot(old(follower.file), bytes[offset..offset + n], Int32(offset)).Some?
    ensures ok ==> WriteSnapshot(old(follower.file), bytes[offset..offset + n], Int32(offset)) == Some(follower.file)
    ensures !ok ==> follower.file == old(follower.file)
  {
    var chunk := Chunk(Int32(offset), bytes[offset..offset + n], offset + n >= |bytes|);
    ok := follower.WriteSnapshotData(chunk.data, chunk.offset);
  }

  /** The sending loop: `count` chunks were accepted. */
  method SendSnapshot(bytes: seq<Byte>, sizes: seq<nat>, follower: SnapshotFile) returns (ok: bool, ghost count: nat)
    requires ReadsSome(sizes, 0, |bytes|)
    modifies follower
    ensures Delivered(follower.file, ok, count) == Deliver(old(follower.file), Chunks(bytes, sizes, 0, 0))
  {
    ghost var want := Deliver(follower.file, Chunks(bytes, sizes, 0, 0));
    var totalSize, offset, i := |bytes|, 0, 0;
    count, ok := 0, true;
    while true
      invariant 0 <= offset <= totalSize && 0 <= i && ok && ReadsSome(sizes, i, totalSize - offset)
      invariant Pending(want, follower.file, bytes, sizes, i, offset, count)
      decreases totalSize - offset
    {
      var n := BytesRead(sizes, i, totalSize - offset);
      if n == 0 {
        break;
      }
      PendingNext(want, follower.file, bytes, sizes, i, offset, count, n);
      ok := SendChunk(bytes, offset, n, follower);
      if !ok {
        return;
      }
      count := count + 1;
      offset, i := offset + n, i + 1;
      if offset >= totalSize {
        break;
      }
    }
    PendingEnd(want, follower.file, bytes, sizes, i, count);
  }
}
